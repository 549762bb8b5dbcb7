/** What each step of the scheduler does, seen from outside: who runs, who is ready and in which order,
    which other queues change and how, and what becomes of the processes.
  */
module SchedEffects {
  import opened Seqs
  import opened ProcQueue
  import opened Sched
  import opened SchedInv
  import opened SchedSteps
  import opened SchedLife
  import opened SchedReap
  import opened SchedSem

  /** Nothing of a process changes but its status. */
  ghost predicate Alike(procs: map<int, Proc>, procs': map<int, Proc>) {
    procs'.Keys == procs.Keys && forall p :: p in procs ==> procs'[p] == procs[p].(status := procs'[p].status)
  }

  ghost predicate QueuesBut(lists: Lists, lists': Lists, qs: set<Qid>) {
    forall q :: q !in qs ==> List(lists', q) == List(lists, q)
  }

  /** Only statuses, the ready queue, these queues and who runs may differ. */
  ghost predicate Only(s: State, t: State, qs: set<Qid>) {
    && Alike(s.procs, t.procs) && QueuesBut(s.lists, t.lists, qs + {ReadyQ})
    && t == s.(procs := t.procs, lists := t.lists, current := t.current, quantum := t.quantum,
               log := s.log.(ran := t.log.ran))
  }

  /** The first in line gets the processor for a full quantum, and the others are ready in that order. */
  ghost predicate Passes(s: State, line: seq<int>, t: State) {
    && line != [] && t.current == line[0] && List(t.lists, ReadyQ) == line[1..]
    && t.quantum == QUANTUM && t.log.ran == s.log.ran + [line[0]]
  }

  /** The current process goes on, in its quantum, and these are ready. */
  ghost predicate Stays(s: State, ready: seq<int>, t: State) {
    t.current == s.current && t.quantum == s.quantum && List(t.lists, ReadyQ) == ready && t.log.ran == s.log.ran
  }

  lemma AlikeSelf(procs: map<int, Proc>)
    ensures Alike(procs, procs)
  {
  }

  lemma AlikeThen(a: map<int, Proc>, b: map<int, Proc>, c: map<int, Proc>)
    requires Alike(a, b) && Alike(b, c)
    ensures Alike(a, c)
  {
    forall p | p in a ensures c[p] == a[p].(status := c[p].status) { assert p in b; }
  }

  lemma OnlyThen(a: State, b: State, c: State, qs: set<Qid>)
    requires Only(a, b, qs) && Only(b, c, {})
    ensures Only(a, c, qs)
  {
    AlikeThen(a.procs, b.procs, c.procs);
    forall q | q !in qs + {ReadyQ} ensures List(c.lists, q) == List(a.lists, q) {
      assert q !in {} + {ReadyQ};
      assert List(b.lists, q) == List(a.lists, q);
    }
  }

  lemma SwitchForm(s: State)
    ensures var r, t := List(s.lists, ReadyQ), Switch(s);
      var line := if StatusOf(s.procs, s.current) == Running then r + [s.current] else r;
      if r == [] then t == s else Passes(s, line, t) && Only(s, t, {})
  {
  }

  /** The end of an outermost section that asked for a switch. */
  lemma ResumeForm(s: State)
    requires s.locks == 1
    ensures !s.flag ==> Resume(s) == s.(locks := 0)
    ensures s.flag ==> Resume(s) == Switch(s.(locks := 0, flag := false))
  {
  }

  /** Whoever is not the terminator leaves it behind in the ready queue. */
  lemma SomeoneReady(s: State)
    requires Inv(s) && s.current != s.reaper
    ensures List(s.lists, ReadyQ) != []
  {
    assert Settled(s.procs, s.lists, s.current, s.reaper);
    var q :| In(s.lists, q, s.reaper);
    assert Member(s.procs, q, s.reaper);
  }

  /** The status of a process names its queue, so the queues give the statuses. */
  lemma ByQueue(s: State, p: int)
    requires Inv(s) && p in s.procs
    ensures s.procs[p].status == Dead <==> p in List(s.lists, DyingQ)
    ensures s.procs[p].status == Sleeping <==> p in List(s.lists, SleepingQ)
    ensures s.procs[p].status in {Runnable, Uninitialized} <==> p in List(s.lists, ReadyQ)
    ensures s.procs[p].status == Running <==> p == s.current
  {
    assert Settled(s.procs, s.lists, s.current, p) && Settled(s.procs, s.lists, s.current, s.current);
    assert In(s.lists, DyingQ, p) ==> Member(s.procs, DyingQ, p);
    assert In(s.lists, SleepingQ, p) ==> Member(s.procs, SleepingQ, p);
    assert In(s.lists, ReadyQ, p) ==> Member(s.procs, ReadyQ, p);
    if p != s.current {
      var q :| In(s.lists, q, p);
      assert Member(s.procs, q, p) && q != LocalQ;
    }
  }

  // Who runs.

  /** sched_yield: the first ready process runs and the current one goes to the back. */
  lemma YieldEffect(s: State)
    requires Inv(s)
    ensures var r, t := List(s.lists, ReadyQ), Advance(s);
      if r == [] then t == s else Passes(s, r + [s.current], t) && Only(s, t, {})
  {
    SwitchForm(s);
  }

  /** The current process leaves the processor: s2 has it in its new place and asks for a switch. */
  lemma Left(s: State, s2: State)
    requires s2.locks == 1 && s2.flag && StatusOf(s2.procs, s2.current) != Running
    requires List(s2.lists, ReadyQ) == List(s.lists, ReadyQ) != [] && s2.log.ran == s.log.ran
    ensures Passes(s, List(s.lists, ReadyQ), Resume(s2)) && Only(s2.(locks := 0, flag := false), Resume(s2), {})
  {
    hide Switch;
    ResumeForm(s2);
    SwitchForm(s2.(locks := 0, flag := false));
  }

  /** wait_queue_sleep: the current process joins the back of the queue and is passed over until it is
      woken. */
  lemma BlockEffect(s: State, q: Qid)
    requires Inv(s) && s.current != s.reaper && q != ReadyQ
    ensures var t := Block(s, q);
      && Passes(s, List(s.lists, ReadyQ), t) && Only(s, t, {q}) && List(t.lists, q) == List(s.lists, q) + [s.current]
  {
    hide Inv, Resume;
    SomeoneReady(s);
    assert s.locks == 0 && !s.flag && s.current in s.procs by { Between(s); }
    var s2 := BlockOn(Postpone(s), q);
    Left(s, s2);
    OnlyThen(s, s2.(locks := 0, flag := false), Resume(s2), {q});
  }

  lemma Between(s: State)
    requires Inv(s)
    ensures s.locks == 0 && !s.flag && s.current in s.procs && s.procs[s.current].status == Running
  {
  }

  /** wait_queue_wake_one. */
  lemma WakeOneEffect(s: State, q: Qid)
    requires Inv(s) && q != ReadyQ
    ensures var l, r, t := List(s.lists, q), List(s.lists, ReadyQ), WakeOne(s, q);
      if l == [] then t == s else Stays(s, r + [l[0]], t) && Only(s, t, {q}) && List(t.lists, q) == l[1..]
  {
    hide Inv;
    Between(s);
    var l := List(s.lists, q);
    if l != [] { assert l[..1] == [l[0]]; }
  }

  /** wait_queue_wake_all. */
  lemma WakeAllEffect(s: State, q: Qid)
    requires Inv(s) && q != ReadyQ
    ensures var l, r, t := List(s.lists, q), List(s.lists, ReadyQ), WakeAll(s, q);
      Stays(s, r + l, t) && Only(s, t, {q}) && List(t.lists, q) == []
  {
    hide Inv;
    Between(s);
  }

  /** sleep_proc_until: the deadline is stored, and the sleepers with an earlier or the same one stay in
      front. */
  lemma SleepEffect(s: State, ts: nat)
    requires Inv(s) && s.current != s.reaper
    ensures var l, t := List(s.lists, SleepingQ), SleepUntil(s, ts);
      var n, s1 := Due(s.procs, l, ts), s.(procs := s.procs[s.current := s.procs[s.current].(sleepUntil := ts)]);
      && Passes(s, List(s.lists, ReadyQ), t) && Only(s1, t, {SleepingQ})
      && List(t.lists, SleepingQ) == l[..n] + [s.current] + l[n..]
      && (forall k :: 0 <= k < |l| ==> l[k] in s.procs && (k < n <==> s.procs[l[k]].sleepUntil <= ts))
  {
    hide Inv, Resume, Due;
    SomeoneReady(s);
    Between(s);
    var l := List(s.lists, SleepingQ);
    assert Mid(s) by { Middle(s); }
    Sleepers(s);
    DueIsPrefix(s.procs, l, ts);
    var n := Due(s.procs, l, ts);
    var s1 := s.(procs := s.procs[s.current := s.procs[s.current].(sleepUntil := ts)]);
    var s2 := Put(Postpone(s), SleepingQ, l[..n] + [s.current] + l[n..])
      .(procs := s.procs[s.current := s.procs[s.current].(status := Sleeping, sleepUntil := ts)], flag := true);
    Left(s, s2);
    OnlyThen(s1, s2.(locks := 0, flag := false), Resume(s2), {SleepingQ});
  }

  lemma Middle(s: State)
    requires Inv(s)
    ensures Mid(s)
  {
  }

  /** handle_timer: the sleepers whose deadline has come are ready behind those who were, and the current
      process goes behind them all when the interval has used up its quantum. */
  lemma TickEffect(s: State, ts: nat, interval: nat)
    requires Inv(s)
    ensures var l, t := List(s.lists, SleepingQ), Tick(s, ts, interval);
      var n := Due(s.procs, l, ts); var ready := List(s.lists, ReadyQ) + l[..n];
      && Only(s, t, {SleepingQ}) && List(t.lists, SleepingQ) == l[n..]
      && (forall k :: 0 <= k < |l| ==> l[k] in s.procs && (k < n <==> s.procs[l[k]].sleepUntil <= ts))
      && if 0 < s.quantum <= interval && ready != [] then Passes(s, ready + [s.current], t)
         else
           Stays(s.(quantum := if s.quantum > interval then s.quantum - interval else s.quantum), ready, t)
  {
    hide Inv, Resume, Due, Charge, WakeMany, Only, Passes, Stays;
    assert Mid(s) by { Middle(s); }
    var l := List(s.lists, SleepingQ);
    Sleepers(s);
    DueIsPrefix(s.procs, l, ts);
    var n := Due(s.procs, l, ts);
    TickWakes(s, n, WakeMany(Postpone(s), SleepingQ, n));
    TickCharges(s, WakeMany(Postpone(s), SleepingQ, n), interval);
  }

  lemma TickWakes(s: State, n: nat, s2: State)
    requires Inv(s) && n <= |List(s.lists, SleepingQ)| && s2 == WakeMany(Postpone(s), SleepingQ, n)
    ensures var l := List(s.lists, SleepingQ);
      && List(s2.lists, SleepingQ) == l[n..] && List(s2.lists, ReadyQ) == List(s.lists, ReadyQ) + l[..n]
      && StatusOf(s2.procs, s2.current) == Running && s2.locks == 1 && !s2.flag && s2.quantum == s.quantum
      && Only(s, s2.(locks := 0), {SleepingQ}) && s2.current == s.current && s2.log == s.log
  {
    StillRunning(Postpone(s), SleepingQ, n, s2);
  }

  lemma TickCharges(s: State, s2: State, interval: nat)
    requires StatusOf(s2.procs, s2.current) == Running && s2.locks == 1 && !s2.flag && s2.quantum == s.quantum
    requires Only(s, s2.(locks := 0), {SleepingQ}) && s2.current == s.current && s2.log == s.log
    ensures var ready, t := List(s2.lists, ReadyQ), Resume(Charge(s2, interval));
      && Only(s, t, {SleepingQ}) && List(t.lists, SleepingQ) == List(s2.lists, SleepingQ)
      && if 0 < s.quantum <= interval && ready != [] then Passes(s, ready + [s.current], t)
         else Stays(s.(quantum := if s.quantum > interval then s.quantum - interval else s.quantum), ready, t)
  {
    hide Resume, Switch, Alike;
    var s3 := s2.(locks := 0);
    ResumeForm(Charge(s2, interval));
    SwitchForm(s3);
    if 0 < s.quantum <= interval {
      assert Charge(s2, interval).(locks := 0, flag := false) == s3;
      if List(s3.lists, ReadyQ) != [] { OnlyThen(s, s3, Switch(s3), {SleepingQ}); }
    }
  }

  // Processes come and go.

  /** sched_add_proc: a process without a parent, with the next pid, ready behind the others. */
  lemma AddEffect(s: State, p: int)
    requires Inv(s) && p !in s.procs
    ensures var t := Add(s, p);
      && Stays(s, List(s.lists, ReadyQ) + [p], t) && QueuesBut(s.lists, t.lists, {ReadyQ})
      && t.procs == s.procs[p := Proc(s.total + 1, Uninitialized, 0, 0, NoChildren(), 0)]
      && t == s.(procs := t.procs, lists := t.lists, total := s.total + 1)
  {
    hide Inv;
    Between(s);
  }

  /** Slot 0 is never used. */
  ghost predicate HasSlot(children: seq<int>) {
    exists k :: 1 <= k < |children| && children[k] == 0
  }

  /** fork_proc: with a slot free, the child has the next pid, names its parent and is named by it, and is
      ready behind the others; without one nothing happens. */
  ghost predicate Forked(s: State, c: int, t: State)
    requires s.current in s.procs
  {
    var me := s.procs[s.current];
    if HasSlot(me.children) then
      && Stays(s, List(s.lists, ReadyQ) + [c], t) && QueuesBut(s.lists, t.lists, {ReadyQ})
      && t.procs.Keys == s.procs.Keys + {c} && s.current in t.procs
      && t.procs[c] == Proc(s.total + 1, Runnable, 0, s.current, NoChildren(), 0)
      && t.procs[s.current] == me.(children := t.procs[s.current].children) && c in t.procs[s.current].children
      && (forall x :: x != c && x != 0 ==> (x in t.procs[s.current].children <==> x in me.children))
      && (forall p :: p in s.procs && p != s.current ==> t.procs[p] == s.procs[p])
      && t == s.(procs := t.procs, lists := t.lists, total := s.total + 1)
    else t == s
  }

  lemma ForkEffect(s: State, c: int)
    requires Inv(s) && c !in s.procs && c != 0
    ensures |s.procs[s.current].children| == MAX_CHILDREN && Forked(s, c, Fork(s, c))
  {
    hide Placed, Waits, Pids, Sems, Ordered;
    var me := s.procs[s.current];
    assert ChildrenOk(s.procs, s.current);
    var slot := SlotOf(me.children, 0);
    SlotFree(me.children, slot);
    if slot < |me.children| { SlotTaken(me.children, slot, c); }
  }

  lemma SlotFree(children: seq<int>, slot: nat)
    requires |children| > 0 && slot == SlotFrom(children, 0, 1)
    ensures slot < |children| <==> HasSlot(children)
  {
  }

  lemma SlotTaken(children: seq<int>, slot: nat, c: int)
    requires slot < |children| && children[slot] == 0
    ensures var l := children[slot := c]; c in l && forall x :: x != c && x != 0 ==> (x in l <==> x in children)
  {
    var l := children[slot := c];
    assert l[slot] == c;
    forall x | x != c && x != 0 && x in children ensures x in l { Kept(children, slot, c, x); }
  }

  /** p is dead and out of its queue, and nobody has been told yet. */
  lemma BuryForm(s: State, p: int, code: int, s2: State)
    requires Inv(s) && p in s.procs && s.procs[p].status !in {Dead, Blocked} && s2 == Die(Postpone(s), p, code)
    ensures List(s2.lists, ReadyQ) == Without(List(s.lists, ReadyQ), p)
    ensures List(s2.lists, SleepingQ) == Without(List(s.lists, SleepingQ), p)
    ensures List(s2.lists, DyingQ) == [p] + List(s.lists, DyingQ)
    ensures QueuesBut(s.lists, s2.lists, {ReadyQ, SleepingQ, DyingQ})
    ensures s2 == s.(procs := s.procs[p := s.procs[p].(exitCode := code, status := Dead)], lists := s2.lists,
                     locks := 1, flag := true, waits := s.waits - {p}, log := s.log.(ended := s.log.ended + [p]))
  {
    hide Placed, Rest, Without;
    ByQueue(s, p);
    if p !in List(s.lists, ReadyQ) { WithoutNone(List(s.lists, ReadyQ), p); }
    if p !in List(s.lists, SleepingQ) { WithoutNone(List(s.lists, SleepingQ), p); }
  }

  /** Who is told of the end of p. */
  function Told(s: State, p: int): seq<int>
    requires p in s.procs
  {
    var parent := s.procs[p].parent;
    if parent == 0 then [] else List(s.lists, ExitWaiters(p)) + List(s.lists, ChildWaiters(parent))
  }

  function TellQueues(s: State, p: int): set<Qid>
    requires p in s.procs
  {
    var parent := s.procs[p].parent;
    if parent == 0 then {} else {ExitWaiters(p), ChildWaiters(parent)}
  }

  lemma NotifyForm(s: State, p: int, s': State)
    requires s.locks > 0 && p in s.procs && s' == Notify(s, p)
    ensures List(s'.lists, ReadyQ) == List(s.lists, ReadyQ) + Told(s, p)
    ensures forall q :: q in TellQueues(s, p) ==> List(s'.lists, q) == []
    ensures QueuesBut(s.lists, s'.lists, TellQueues(s, p) + {ReadyQ}) && Alike(s.procs, s'.procs)
    ensures forall x :: x in s.procs && x !in Told(s, p) ==> x in s'.procs && s'.procs[x] == s.procs[x]
    ensures s' == s.(procs := s'.procs, lists := s'.lists)
  {
    hide WakeAll, WakeMany, Alike;
    AlikeSelf(s.procs);
    if s.procs[p].parent != 0 {
      var s1 := WakeAll(s, ExitWaiters(p));
      var parent := s.procs[p].parent;
      NestedWakeAll(s, ExitWaiters(p));
      WakeForm(s, ExitWaiters(p), s1);
      NestedWakeAll(s1, ChildWaiters(parent));
      WakeForm(s1, ChildWaiters(parent), s');
      AlikeThen(s.procs, s1.procs, s'.procs);
      assert List(s.lists, ReadyQ) + List(s.lists, ExitWaiters(p)) + List(s.lists, ChildWaiters(parent))
          == List(s.lists, ReadyQ) + Told(s, p);
    }
  }

  lemma WakeForm(s: State, q: Qid, s': State)
    requires q != ReadyQ && s' == WakeMany(s, q, |List(s.lists, q)|)
    ensures List(s'.lists, ReadyQ) == List(s.lists, ReadyQ) + List(s.lists, q) && List(s'.lists, q) == []
    ensures QueuesBut(s.lists, s'.lists, {q, ReadyQ}) && Alike(s.procs, s'.procs)
    ensures forall x :: x in s.procs && x !in List(s.lists, q) ==> x in s'.procs && s'.procs[x] == s.procs[x]
    ensures s' == s.(procs := s'.procs, lists := s'.lists)
  {
    assert List(s.lists, q)[..|List(s.lists, q)|] == List(s.lists, q);
  }

  /** proc_exit of a process that is neither dead nor blocked: its exit code is stored, it leaves its queue
      for that of the dead, its parent and all who wait for it are ready behind the others, and the
      current process is passed over or goes behind them. */
  ghost predicate Ended(s: State, p: int, code: int, t: State)
    requires p in s.procs
  {
    var ready := Without(List(s.lists, ReadyQ), p) + Told(s, p);
    && Alike(s.procs[p := s.procs[p].(exitCode := code)], t.procs) && t.procs[p].status == Dead
    && List(t.lists, DyingQ) == [p] + List(s.lists, DyingQ)
    && List(t.lists, SleepingQ) == Without(List(s.lists, SleepingQ), p)
    && (forall q :: q in TellQueues(s, p) ==> List(t.lists, q) == [])
    && QueuesBut(s.lists, t.lists, {ReadyQ, SleepingQ, DyingQ} + TellQueues(s, p))
    && (if p == s.current then Passes(s, ready, t)
        else if ready == [] then Stays(s, ready, t)
        else Passes(s, ready + [s.current], t))
    && t == s.(procs := t.procs, lists := t.lists, current := t.current, quantum := t.quantum,
               waits := s.waits - {p}, log := s.log.(ran := t.log.ran, ended := s.log.ended + [p]))
  }

  lemma SameTold(s: State, s': State, p: int)
    requires p in s.procs && p in s'.procs && s'.procs[p].parent == s.procs[p].parent
    requires QueuesBut(s.lists, s'.lists, {ReadyQ, SleepingQ, DyingQ})
    ensures Told(s', p) == Told(s, p) && TellQueues(s', p) == TellQueues(s, p)
  {
  }

  lemma NotTold(s: State, p: int)
    requires Inv(s) && p in s.procs
    ensures s.current !in Told(s, p)
  {
    assert Settled(s.procs, s.lists, s.current, s.current);
    assert !In(s.lists, ExitWaiters(p), s.current) && !In(s.lists, ChildWaiters(s.procs[p].parent), s.current);
  }

  /** The switch at the end of proc_exit. */
  lemma ExitSwitch(s: State, p: int, s3: State, ready: seq<int>)
    requires Inv(s) && p in s.procs && p != s.reaper && ready == Without(List(s.lists, ReadyQ), p) + Told(s, p)
    requires s3.locks == 1 && s3.flag && s3.current == s.current && s3.quantum == s.quantum && s3.log.ran == s.log.ran
    requires StatusOf(s3.procs, s.current) == (if p == s.current then Dead else Running)
    requires List(s3.lists, ReadyQ) == ready
    ensures var t := Resume(s3);
      && Alike(s3.procs, t.procs) && QueuesBut(s3.lists, t.lists, {ReadyQ})
      && t == s3.(procs := t.procs, lists := t.lists, current := t.current, quantum := t.quantum, locks := 0,
                  flag := false, log := s3.log.(ran := t.log.ran))
      && if p == s.current then Passes(s, ready, t)
         else if ready == [] then Stays(s, ready, t)
         else Passes(s, ready + [s.current], t)
  {
    hide Inv, Resume, Switch, Without, Told;
    ResumeForm(s3);
    SwitchForm(s3.(locks := 0, flag := false));
    if p == s.current {
      SomeoneReady(s);
      CurrentFree(s, ReadyQ) by { Middle(s); Between(s); }
      WithoutNone(List(s.lists, ReadyQ), p);
    }
  }

  lemma ExitQueues(s: State, p: int, code: int, s2: State, s3: State, t: State)
    requires p in s.procs && p in s2.procs && TellQueues(s2, p) == TellQueues(s, p)
    requires QueuesBut(s.lists, s2.lists, {ReadyQ, SleepingQ, DyingQ})
    requires s2.procs == s.procs[p := s.procs[p].(exitCode := code, status := Dead)]
    requires QueuesBut(s2.lists, s3.lists, TellQueues(s2, p) + {ReadyQ}) && Alike(s2.procs, s3.procs)
    requires forall q :: q in TellQueues(s2, p) ==> List(s3.lists, q) == []
    requires Alike(s3.procs, t.procs) && QueuesBut(s3.lists, t.lists, {ReadyQ})
    ensures Alike(s.procs[p := s.procs[p].(exitCode := code)], t.procs) && p in t.procs
    ensures QueuesBut(s.lists, t.lists, {ReadyQ, SleepingQ, DyingQ} + TellQueues(s, p))
    ensures List(t.lists, DyingQ) == List(s2.lists, DyingQ) && List(t.lists, SleepingQ) == List(s2.lists, SleepingQ)
    ensures forall q :: q in TellQueues(s, p) ==> List(t.lists, q) == []
  {
    AlikeThen(s2.procs, s3.procs, t.procs);
    forall q | q !in {ReadyQ, SleepingQ, DyingQ} + TellQueues(s, p) ensures List(t.lists, q) == List(s.lists, q) {
      assert List(t.lists, q) == List(s3.lists, q) == List(s2.lists, q);
    }
  }

  lemma ExitEffect(s: State, p: int, code: int)
    requires Inv(s) && p in s.procs && p != s.reaper && s.procs[p].status != Blocked
    ensures if s.procs[p].status == Dead then Exit(s, p, code) == s else Ended(s, p, code, Exit(s, p, code))
  {
    hide Inv, Die, Notify, Resume, Without, Alike, QueuesBut, Told, TellQueues, Passes, Stays;
    Between(s);
    if s.procs[p].status == Dead {
      ResumeForm(Postpone(s));
    } else {
      var s2 := Die(Postpone(s), p, code);
      BuryForm(s, p, code, s2);
      var s3 := Notify(s2, p);
      NotifyForm(s2, p, s3);
      SameTold(s, s2, p);
      NotTold(s, p);
      ByQueue(s, p);
      ExitSwitch(s, p, s3, List(s3.lists, ReadyQ));
      ExitQueues(s, p, code, s2, s3, Resume(s3));
      ExitKeeps(s, p, code);
      ByQueue(Resume(s3), p);
    }
  }

  // Semaphores.

  /** Of the semaphores only this one, and of the other things only the queues, change. */
  ghost predicate SemStep(s: State, t: State, id: int) {
    && id in s.sems && id in t.sems && t.sems == s.sems[id := t.sems[id]] && t.sems[id].limit == s.sems[id].limit
    && (forall j :: j != id ==> SameRecord(s.log, t.log, j))
    && Alike(s.procs, t.procs) && QueuesBut(s.lists, t.lists, {Waiters(id), ReadyQ})
    && t == s.(procs := t.procs, lists := t.lists, current := t.current, quantum := t.quantum, sems := t.sems,
               log := s.log.(ran := t.log.ran, asked := t.log.asked, granted := t.log.granted,
                             holders := t.log.holders))
  }

  /** semaphore_lock: below the limit the caller becomes a holder and goes on; at the limit it waits behind
      those who wait already. */
  ghost predicate Locked(s: State, id: int, t: State)
    requires id in s.sems
  {
    var l, sem, me := List(s.lists, Waiters(id)), s.sems[id], s.current;
    && SemStep(s, t, id) && Asked(t.log, id) == Asked(s.log, id) + [me]
    && if sem.locks < sem.limit then
      && Stays(s, List(s.lists, ReadyQ), t) && List(t.lists, Waiters(id)) == l && t.sems[id].locks == sem.locks + 1
      && Holders(t.log, id) == Holders(s.log, id) + multiset{me} && Granted(t.log, id) == Granted(s.log, id) + [me]
    else
      && Passes(s, List(s.lists, ReadyQ), t) && List(t.lists, Waiters(id)) == l + [me] && t.sems == s.sems
      && Holders(t.log, id) == Holders(s.log, id) && Granted(t.log, id) == Granted(s.log, id)
  }

  lemma LockEffect(s: State, id: int)
    requires Inv(s) && id in s.sems && s.current != s.reaper
    ensures Locked(s, id, Lock(s, id))
  {
    hide Inv, Lock, Resume, Locked, BlockOn;
    Between(s);
    LockForm(s, id);
    if s.sems[id].locks < s.sems[id].limit {
      TakenEffect(s, id);
    } else {
      LockWaits(s, id, BlockOn(Postpone(s).(log := Ask(s.log, id, s.current)), Waiters(id)));
    }
  }

  lemma TakenEffect(s: State, id: int)
    requires id in s.sems && s.sems[id].locks < s.sems[id].limit
    ensures Locked(s, id, Taken(s, id))
  {
    hide Ask, Grant, Asked, Granted, Holders, SameRecord;
    AlikeSelf(s.procs);
    AskLog(s.log, id, s.current);
    GrantLog(Ask(s.log, id, s.current), id, s.current);
    LogThen(s.log, Ask(s.log, id, s.current), Grant(Ask(s.log, id, s.current), id, s.current), id);
  }

  lemma LockWaits(s: State, id: int, s2: State)
    requires Inv(s) && id in s.sems && s.current != s.reaper && s.sems[id].locks >= s.sems[id].limit
    requires s2 == BlockOn(Postpone(s).(log := Ask(s.log, id, s.current)), Waiters(id))
    ensures Locked(s, id, Resume(s2))
  {
    hide Inv, Resume, Ask, Asked, Granted, Holders, SameRecord, Alike;
    Between(s);
    SomeoneReady(s);
    AskLog(s.log, id, s.current);
    Left(s, s2);
    MarkAlike(s.procs, s.current, Blocked);
    AlikeThen(s.procs, s2.procs, Resume(s2).procs);
    LogRan(s2.log, Resume(s2).log, id);
    forall j | j != id ensures SameRecord(s.log, Resume(s2).log, j) {
      LogRan(s2.log, Resume(s2).log, j);
    }
  }

  lemma MarkAlike(procs: map<int, Proc>, p: int, st: Status)
    ensures Alike(procs, Mark(procs, p, st))
  {
  }

  lemma AskLog(log: Log, id: int, p: int)
    ensures var l := Ask(log, id, p);
      && l == log.(asked := l.asked) && Asked(l, id) == Asked(log, id) + [p]
      && Granted(l, id) == Granted(log, id) && Holders(l, id) == Holders(log, id)
      && forall j :: j != id ==> SameRecord(log, l, j)
  {
  }

  lemma GrantLog(log: Log, id: int, p: int)
    ensures var l := Grant(log, id, p);
      && l == log.(granted := l.granted, holders := l.holders) && Asked(l, id) == Asked(log, id)
      && Granted(l, id) == Granted(log, id) + [p] && Holders(l, id) == Holders(log, id) + multiset{p}
      && forall j :: j != id ==> SameRecord(log, l, j)
  {
  }

  lemma GiveUpLog(log: Log, id: int, p: int)
    ensures var l := GiveUp(log, id, p);
      && l == log.(holders := l.holders) && Asked(l, id) == Asked(log, id)
      && Granted(l, id) == Granted(log, id) && Holders(l, id) == Holders(log, id) - multiset{p}
      && forall j :: j != id ==> SameRecord(log, l, j)
  {
    var l := GiveUp(log, id, p);
    forall j | j != id ensures SameRecord(log, l, j) {}
  }

  lemma LogThen(a: Log, b: Log, c: Log, id: int)
    requires forall j :: j != id ==> SameRecord(a, b, j)
    requires forall j :: j != id ==> SameRecord(b, c, j)
    ensures forall j :: j != id ==> SameRecord(a, c, j)
  {
    forall j | j != id ensures SameRecord(a, c, j) { assert SameRecord(a, b, j) && SameRecord(b, c, j); }
  }

  lemma LogRan(log: Log, log': Log, j: int)
    requires log' == log.(ran := log'.ran)
    ensures SameRecord(log, log', j)
    ensures Asked(log', j) == Asked(log, j) && Granted(log', j) == Granted(log, j)
    ensures Holders(log', j) == Holders(log, j)
    ensures forall l :: SameRecord(l, log, j) ==> SameRecord(l, log', j)
  {
  }

  /** semaphore_try_lock: the same below the limit, and nothing at it. */
  lemma TryLockEffect(s: State, id: int)
    requires Inv(s) && id in s.sems
    ensures var sem, r := s.sems[id], TryLock(s, id);
      && r.1 == (sem.locks < sem.limit)
      && if r.1 then Locked(s, id, r.0) else r.0 == s
  {
    hide Inv, TryLock, Locked, Taken;
    Between(s);
    TryLockForm(s, id);
    if s.sems[id].locks < s.sems[id].limit { TakenEffect(s, id); }
  }

  /** semaphore_unlock by a holder: the first waiter holds it in its place and is ready behind the others, or
      the count goes down. */
  ghost predicate Unlocked(s: State, id: int, t: State)
    requires id in s.sems
  {
    var l, sem, me := List(s.lists, Waiters(id)), s.sems[id], s.current;
    && SemStep(s, t, id) && Asked(t.log, id) == Asked(s.log, id)
    && if l != [] then
      && Stays(s, List(s.lists, ReadyQ) + [l[0]], t) && List(t.lists, Waiters(id)) == l[1..] && t.sems == s.sems
      && Holders(t.log, id) == Holders(s.log, id) - multiset{me} + multiset{l[0]}
      && Granted(t.log, id) == Granted(s.log, id) + [l[0]]
    else
      && Stays(s, List(s.lists, ReadyQ), t) && List(t.lists, Waiters(id)) == [] && t.sems[id].locks == sem.locks - 1
      && Holders(t.log, id) == Holders(s.log, id) - multiset{me} && Granted(t.log, id) == Granted(s.log, id)
  }

  lemma UnlockEffect(s: State, id: int)
    requires Inv(s) && id in s.sems && s.current in Holders(s.log, id)
    ensures Unlocked(s, id, Unlock(s, id))
  {
    hide Inv, Unlock, Resume, WakeMany, Unlocked, Grant, GiveUp, Holders;
    Between(s);
    UnlockForm(s, id);
    var l, log1 := List(s.lists, Waiters(id)), GiveUp(s.log, id, s.current);
    if l != [] {
      UnlockHands(s, id, l, Postpone(s).(log := Grant(log1, id, l[0])));
    } else {
      HeldCount(s, id);
      UnlockDrops(s, id, Unlock(s, id));
    }
  }

  lemma UnlockHands(s: State, id: int, l: seq<int>, s1: State)
    requires s.locks == 0 && !s.flag && id in s.sems && l == List(s.lists, Waiters(id)) && l != []
    requires s1 == Postpone(s).(log := Grant(GiveUp(s.log, id, s.current), id, l[0]))
    ensures Unlocked(s, id, Resume(WakeMany(s1, Waiters(id), 1)))
  {
    hide Grant, GiveUp, Asked, Granted, Holders, SameRecord, Alike, MarkAll;
    var log1 := GiveUp(s.log, id, s.current);
    GiveUpLog(s.log, id, s.current);
    GrantLog(log1, id, l[0]);
    LogThen(s.log, log1, s1.log, id);
    assert l[..1] == [l[0]];
    MarkAllAlike(s.procs, l[..1], Runnable);
  }

  lemma UnlockDrops(s: State, id: int, t: State)
    requires id in s.sems && List(s.lists, Waiters(id)) == [] && 0 < s.sems[id].locks <= 255
    requires t == s.(sems := s.sems[id := s.sems[id].(locks := (s.sems[id].locks + 255) % 256)],
      log := GiveUp(s.log, id, s.current))
    ensures Unlocked(s, id, t)
  {
    hide GiveUp, Asked, Granted, Holders, SameRecord, Alike;
    AlikeSelf(s.procs);
    GiveUpLog(s.log, id, s.current);
  }

  lemma MarkAllAlike(procs: map<int, Proc>, ps: seq<int>, st: Status)
    ensures Alike(procs, MarkAll(procs, ps, st))
  {
  }

  lemma HeldCount(s: State, id: int)
    requires Inv(s) && id in s.sems && s.current in Holders(s.log, id)
    ensures 0 < s.sems[id].locks <= 255
  {
    assert SemOk(s.lists, s.sems[id], s.log, id);
    assert |Holders(s.log, id)| > 0;
  }

  // waitpid and the terminator.

  /** The current process has taken its dead child c off the system: the pid is given back, the children
      of c have no parent any more, and nothing else happens to anybody. */
  ghost predicate TakesOff(s: State, c: int, t: State)
    requires c in s.procs
  {
    && Stays(s, List(s.lists, ReadyQ), t) && QueuesBut(s.lists, t.lists, {DyingQ})
    && List(t.lists, DyingQ) == Without(List(s.lists, DyingQ), c)
    && t.procs.Keys == s.procs.Keys - {c} && s.current in t.procs && c !in t.procs[s.current].children
    && (forall x :: x in t.procs ==>
      t.procs[x] == s.procs[x].(parent := if s.procs[x].parent == c then 0 else s.procs[x].parent,
                                children := if x == s.current then t.procs[x].children else s.procs[x].children))
    && t == s.(procs := t.procs, lists := t.lists, waits := t.waits,
               log := s.log.(freed := s.log.freed + [s.procs[c].pid]))
  }

  lemma CollectForm(s: State, c: int, slot: nat)
    requires MayCollect(s, c, slot)
    ensures TakesOff(s, c, Collect(s, c, slot).0) && Collect(s, c, slot).0.waits == s.waits
  {
    hide Placed, PlacedBut, Waits, Pids, Sems, Ordered, Without;
    DeadChild(s, c, slot);
    assert ChildrenOk(s.procs, s.current) && ChildrenOk(s.procs, c);
    Shrunk(s.procs[s.current].children, slot);
    var t := Collect(s, c, slot).0;
    forall x | x in t.procs ensures s.procs[x].parent == c <==> x != 0 && x in s.procs[c].children {
      assert ParentOk(s.procs, x);
    }
  }

  /** waitpid_proc puts the caller to sleep: it remembers what for, joins the queue of those who wait for any
      child or for that child, and is passed over. */
  ghost predicate SleepsFor(s: State, pid: int, t: State)
    requires s.current in s.procs
  {
    && s.current in t.waits && Wanted(t.waits[s.current]) == pid && t.waits == s.waits[s.current := t.waits[s.current]]
    && (t.waits[s.current].Child? ==>
      var c := t.waits[s.current].child; c in s.procs[s.current].children && Matches(s.procs, c, pid))
    && var q := QueueFor(s.current, t.waits[s.current]);
    && Passes(s, List(s.lists, ReadyQ), t) && List(t.lists, q) == List(s.lists, q) + [s.current]
    && Only(s.(waits := t.waits), t, {q})
  }

  lemma SleepsForm(s: State, w: Wait)
    requires Inv(s) && s.current != s.reaper
    requires w.Child? ==> w.child in s.procs[s.current].children && Matches(s.procs, w.child, w.pid)
    ensures var s1 := Postpone(s).(waits := s.waits[s.current := w]);
      SleepsFor(s, Wanted(w), Resume(BlockOn(s1, QueueFor(s.current, w))))
  {
    hide Inv, Resume, Alike;
    Between(s);
    SomeoneReady(s);
    var s1 := Postpone(s).(waits := s.waits[s.current := w]);
    var q := QueueFor(s.current, w);
    var s2 := BlockOn(s1, q);
    Left(s, s2);
    MarkAlike(s.procs, s.current, Blocked);
    OnlyThen(s.(waits := s1.waits), s2.(locks := 0, flag := false), Resume(s2), {q});
  }

  /** c is the first of the children that can be collected. */
  ghost predicate Foremost(procs: map<int, Proc>, children: seq<int>, pid: int, c: int) {
    exists k ::
      1 <= k < |children| && children[k] == c && forall j :: 1 <= j < k ==> !Collectable(procs, children[j], pid)
  }

  /** The child that a reply names is taken off, the first that could be. */
  ghost predicate TakesChild(s: State, pid: int, r: Reply, t: State)
    requires s.current in s.procs
  {
    exists c ::
      && c in s.procs[s.current].children && Collectable(s.procs, c, pid) && Names(s.procs, r, c) && TakesOff(s, c, t)
      && Foremost(s.procs, s.procs[s.current].children, pid, c)
  }

  /** What waitpid_proc does up to the point where it sleeps or returns. */
  ghost predicate WaitStarts(s: State, pid: int, options: int, r: Reply, t: State)
    requires s.current in s.procs
  {
    var children := s.procs[s.current].children;
    if (options != 0 && options != 1) || pid == 0 || pid < -1 then r == Invalid && t == s
    else if forall c :: c in children ==> !Matches(s.procs, c, pid) then r == NoChild && t == s
    else if exists c :: c in children && Collectable(s.procs, c, pid) then
      TakesChild(s, pid, r, t) && t.waits == s.waits
    else if options == 1 then r == NothingYet && t == s
    else r == Asleep && SleepsFor(s, pid, t)
  }

  lemma WaitBeginEffect(s: State, pid: int, options: int)
    requires Inv(s) && s.current != s.reaper && s.current !in s.waits
    ensures |s.procs[s.current].children| > 0
    ensures WaitStarts(s, pid, options, WaitBegin(s, pid, options).1, WaitBegin(s, pid, options).0)
  {
    hide Placed, PlacedBut, Rest, Collect, Resume, BlockOn, FindChild, SleepsFor, TakesOff, Foremost;
    Kids(s);
    var children, s1 := s.procs[s.current].children, Postpone(s);
    FoundAlive(s.procs, children, pid);
    var k := FindChild(s.procs, children, pid);
    ResumeForm(s1);
    SameMid(s, s1);
    if k < |children| {
      var c := children[k];
      assert c in children;
      if s.procs[c].status == Dead {
        FindsForemost(s.procs, children, pid, k);
        CollectBack(s1, c, k);
        TakesOffSame(s, s1, c, Resume(Collect(s1, c, k).0));
        CollectNames(s1, c, k);
      } else {
        SleepsForm(s, if pid == -1 then AnyChild else Child(c, k, pid));
      }
    }
  }

  lemma CollectNames(s: State, c: int, slot: nat)
    requires c in s.procs && s.current in s.procs && slot < |s.procs[s.current].children|
    ensures Names(s.procs, Collect(s, c, slot).1, c)
  {
  }

  /** process_wait_collect and the end of the section. */
  lemma CollectBack(s1: State, c: int, slot: nat)
    requires MayCollect(s1, c, slot) && s1.locks == 1 && !s1.flag
    ensures var t := Resume(Collect(s1, c, slot).0);
      TakesOff(s1.(locks := 0), c, t) && t.waits == s1.waits
  {
    hide Placed, Rest, Collect, Resume, Without;
    CollectForm(s1, c, slot);
    ResumeForm(Collect(s1, c, slot).0);
  }

  lemma TakesOffSame(s: State, s1: State, c: int, t: State)
    requires c in s.procs && s.locks == 0 && s1 == s.(locks := 1, waits := s1.waits) && TakesOff(s1.(locks := 0), c, t)
    ensures TakesOff(s, c, t)
  {
    hide Without;
  }

  /** What waitpid_proc does after it was woken. */
  lemma WaitEndEffect(s: State)
    requires Inv(s) && s.current in s.waits
    ensures |s.procs[s.current].children| > 0
    ensures TakesChild(s, Wanted(s.waits[s.current]), WaitEnd(s).1, WaitEnd(s).0)
    ensures WaitEnd(s).0.waits == s.waits - {s.current}
  {
    hide Placed, PlacedBut, Rest, Resume, Collect, FindChild, TakesOff, Foremost;
    Kids(s);
    var s1 := Postpone(s).(waits := s.waits - {s.current});
    var children := s.procs[s.current].children;
    var slot := match s.waits[s.current] case AnyChild => FindChild(s.procs, children, -1) case Child(_, k, _) => k;
    Woken(s);
    FoundAlive(s.procs, children, -1);
    var c := match s.waits[s.current] case AnyChild => At(children, slot) case Child(c, _, _) => c;
    ForgetWait(s, s1);
    assert MayCollect(s1, c, slot);
    CollectBack(s1, c, slot);
    TakesOffSame(s, s1, c, Resume(Collect(s1, c, slot).0));
    CollectNames(s1, c, slot);
    assert children[slot] == c;
    if s.waits[s.current] == AnyChild {
      FindsForemost(s.procs, children, -1, slot);
    } else {
      OnlyOne(s, c, slot, Wanted(s.waits[s.current]));
    }
  }

  lemma FindsForemost(procs: map<int, Proc>, children: seq<int>, pid: int, k: nat)
    requires 1 <= k < |children| && k == FindChild(procs, children, pid) && Collectable(procs, children[k], pid)
    ensures Foremost(procs, children, pid, children[k])
  {
    var d := FirstDead(procs, children, pid, 1);
    assert d <= k;
  }

  /** No other child has the pid of a child. */
  lemma OnlyOne(s: State, c: int, slot: nat, pid: int)
    requires Inv(s) && 1 <= slot < |s.procs[s.current].children| && s.procs[s.current].children[slot] == c
    requires c in s.procs && c != 0 && s.procs[c].pid == pid
    ensures Foremost(s.procs, s.procs[s.current].children, pid, c)
  {
    hide Placed, Waits, Sems, Ordered;
    var children := s.procs[s.current].children;
    assert ChildrenOk(s.procs, s.current);
    forall j | 1 <= j < slot ensures !Collectable(s.procs, children[j], pid) {
      assert children[j] != 0 ==> children[j] != children[slot];
    }
  }

  /** What the terminator leaves of p, if it leaves p. */
  ghost predicate Survives(s: State, t: State, p: int) {
    && p in s.procs && p in t.procs
    && t.procs[p] == s.procs[p].(parent := t.procs[p].parent, children := t.procs[p].children)
    && (t.procs[p].parent == s.procs[p].parent || (t.procs[p].parent == 0 && s.procs[p].parent !in t.procs))
  }

  /** p is gone: it was dead, its pid is given back, and it had no parent or its parent has gone with it. */
  ghost predicate Vanishes(s: State, t: State, p: int) {
    && p in s.procs && p !in t.procs && s.procs[p].status == Dead && s.procs[p].pid in t.log.freed
    && (s.procs[p].parent == 0 || s.procs[p].parent !in t.procs)
  }

  /** Nothing but processes, the queues of the dead and the list of given back pids may differ. */
  ghost predicate OnlyDead(s: State, t: State) {
    && QueuesBut(s.lists, t.lists, {DyingQ, LocalQ}) && s.log.freed <= t.log.freed && t.procs.Keys <= s.procs.Keys
    && t == s.(procs := t.procs, lists := t.lists, log := s.log.(freed := t.log.freed))
  }

  /** One pass over the dead: who has no parent goes, nobody else goes unless the parent went. */
  ghost predicate Reaped(s: State, t: State) {
    && OnlyDead(s, t)
    && (forall p :: p in s.procs ==> Survives(s, t, p) || Vanishes(s, t, p))
    && (forall p :: p in List(s.lists, DyingQ) && p in s.procs && s.procs[p].parent == 0 ==> p !in t.procs)
  }

  lemma FreeForm(s: State, p: int, s': State)
    requires Family(s.procs) && 0 !in s.procs && p in s.procs && s.procs[p].parent == 0 && s.procs[p].status == Dead
    requires s' == FreeProc(s, p)
    ensures s'.procs.Keys == s.procs.Keys - {p} && s'.log.freed == s.log.freed + [s.procs[p].pid]
    ensures s' == s.(procs := s'.procs, log := s.log.(freed := s'.log.freed))
    ensures forall x :: x in s'.procs ==>
      s'.procs[x] == s.procs[x].(parent := if s.procs[x].parent == p then 0 else s.procs[x].parent)
  {
    assert ChildrenOk(s.procs, p);
    forall x | x in s'.procs ensures s.procs[x].parent == p <==> x != 0 && x in s.procs[p].children {
      assert ParentOk(s.procs, x);
    }
  }

  lemma {:induction false} SiftForm(s: State)
    requires Mid(s) && s.procs[s.current].status == Running
    ensures Reaped(s, Sift(s))
    decreases |List(s.lists, DyingQ)|
  {
    hide PlacedBut, Placed, Rest, Reaped, FreeProc;
    var l := List(s.lists, DyingQ);
    if l == [] {
      ReapedNone(s);
    } else {
      var p, s1 := l[0], Put(s, DyingQ, l[1..]);
      Popped(s.procs, s.lists, s.current, DyingQ);
      if s.procs[p].parent != 0 {
        var s2 := Put(s1, LocalQ, [p] + List(s.lists, LocalQ));
        AsideKeeps(s, s2, DyingQ, LocalQ, [p] + List(s.lists, LocalQ));
        SiftForm(s2);
        ReapedAside(s, s2, Sift(s2));
      } else {
        QuietLists(s, s1);
        FreeKeeps(s1, p, FreeProc(s1, p));
        FamilyOf(s1);
        NoNull(s);
        FreeForm(s1, p, FreeProc(s1, p));
        SiftForm(FreeProc(s1, p));
        ReapedFree(s, FreeProc(s1, p), Sift(FreeProc(s1, p)));
      }
    }
  }

  lemma FamilyOf(s: State)
    requires Rest(s)
    ensures Family(s.procs)
  {
  }

  lemma ReapedNone(s: State)
    requires List(s.lists, DyingQ) == []
    ensures Reaped(s, s)
  {
  }

  lemma ReapedAside(s: State, s2: State, t: State)
    requires List(s.lists, DyingQ) != [] && List(s.lists, DyingQ)[0] in s.procs
    requires s.procs[List(s.lists, DyingQ)[0]].parent != 0
    requires s2 == s.(lists := s2.lists) && QueuesBut(s.lists, s2.lists, {DyingQ, LocalQ})
    requires List(s2.lists, DyingQ) == List(s.lists, DyingQ)[1..] && Reaped(s2, t)
    ensures Reaped(s, t)
  {
    var l := List(s.lists, DyingQ);
    forall p | p in s.procs ensures Survives(s, t, p) || Vanishes(s, t, p) {
      assert Survives(s2, t, p) || Vanishes(s2, t, p);
    }
    assert l == [l[0]] + l[1..];
  }

  lemma ReapedFree(s: State, s2: State, t: State)
    requires List(s.lists, DyingQ) != [] && Reaped(s2, t)
    requires var p := List(s.lists, DyingQ)[0];
      && p in s.procs && s.procs[p].parent == 0 && s.procs[p].status == Dead && 0 !in s.procs
      && s2.procs.Keys == s.procs.Keys - {p} && s2.log.freed == s.log.freed + [s.procs[p].pid]
      && s2 == s.(procs := s2.procs, lists := s2.lists, log := s.log.(freed := s2.log.freed))
      && forall x :: x in s2.procs ==>
        s2.procs[x] == s.procs[x].(parent := if s.procs[x].parent == p then 0 else s.procs[x].parent)
    requires QueuesBut(s.lists, s2.lists, {DyingQ}) && List(s2.lists, DyingQ) == List(s.lists, DyingQ)[1..]
    ensures Reaped(s, t)
  {
    var l := List(s.lists, DyingQ);
    var p := l[0];
    assert s.procs[p].pid in s2.log.freed && s2.log.freed <= t.log.freed && p !in t.procs;
    forall x | x in s.procs ensures Survives(s, t, x) || Vanishes(s, t, x) {
      if x != p { assert Survives(s2, t, x) || Vanishes(s2, t, x); }
    }
    assert l == [p] + l[1..];
  }

  /** The terminator: every dead process without a parent goes, and nobody goes who is not dead or whose
      parent stays. */
  lemma ReapEffect(s: State)
    requires Inv(s)
    ensures Reaped(s, Reap(s)) && List(Reap(s).lists, LocalQ) == []
  {
    hide Placed, Rest, Sift, Requeue, Reaped, Resume;
    var s1 := Postpone(s);
    SameMid(s, s1);
    SiftForm(s1);
    SiftKeeps(s1);
    RequeueKeeps(Sift(s1));
    RequeueForm(Sift(s1));
    ResumeForm(Requeue(Sift(s1)));
    ReapedBack(s, s1, Sift(s1), Reap(s));
  }

  lemma {:induction false} RequeueForm(s: State)
    ensures QueuesBut(s.lists, Requeue(s).lists, {DyingQ, LocalQ}) && Requeue(s) == s.(lists := Requeue(s).lists)
    decreases |List(s.lists, LocalQ)|
  {
    var l := List(s.lists, LocalQ);
    if l != [] { RequeueForm(Put(Put(s, LocalQ, l[1..]), DyingQ, List(s.lists, DyingQ) + [l[0]])); }
  }

  lemma ReapedBack(s: State, s1: State, s2: State, t: State)
    requires s.locks == 0 && s1 == Postpone(s) && Reaped(s1, s2)
    requires t == s2.(locks := 0, lists := t.lists) && QueuesBut(s2.lists, t.lists, {DyingQ, LocalQ})
    ensures Reaped(s, t)
  {
    forall p | p in s.procs ensures Survives(s, t, p) || Vanishes(s, t, p) {
      assert Survives(s1, s2, p) || Vanishes(s1, s2, p);
    }
  }
}
