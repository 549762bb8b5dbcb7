/** The scheduler as a step machine over sequences.  One step is one outermost
    sched_postpone .. sched_resume section; nested sections are counted, and the switch they ask
    for happens in the last sched_resume.
  */
module Sched {
  import opened Seqs
  import opened ProcQueue

  const MAX_CHILDREN := 256
  const QUANTUM := 50000

  datatype Status = Uninitialized | Runnable | Running | Sleeping | Blocked | Dead

  datatype Proc = Proc(pid: nat, status: Status, sleepUntil: nat, parent: int, children: seq<int>, exitCode: int)

  /** What a process inside waitpid sleeps for: its local variables across the switch. */
  datatype Wait = AnyChild | Child(child: int, slot: nat, pid: int)

  datatype Sem = Sem(limit: nat, locks: nat)

  /** What happened so far: who was switched to, who was terminated, the pids released, and for
      each semaphore who asked for it, who got it and who has it. */
  datatype Log = Log(ran: seq<int>, ended: seq<int>, freed: seq<nat>, asked: map<int, seq<int>>,
                     granted: map<int, seq<int>>, holders: map<int, multiset<int>>)

  datatype State = State(procs: map<int, Proc>, lists: Lists, current: int, total: nat, reaper: int, locks: nat,
                         flag: bool, quantum: nat, waits: map<int, Wait>, sems: map<int, Sem>, log: Log)

  /** sched_initialize: the kernel process runs and the terminator is ready. */
  function Initial(kernel: int, reaper: int): State {
    State(map[kernel := Proc(0, Running, 0, 0, NoChildren(), 0),
      reaper := Proc(2, Uninitialized, 0, 0, NoChildren(), 0)],
          map[ReadyQ := [reaper]], kernel, 2, reaper, 0, false, 0, map[], map[], Log([], [], [], map[], map[], map[]))
  }

  /** The statuses of the processes in a queue. */
  predicate Suits(q: Qid, st: Status) {
    match q
    case ReadyQ => st == Runnable || st == Uninitialized
    case SleepingQ => st == Sleeping
    case DyingQ => st == Dead
    case LocalQ => st == Dead
    case ChildWaiters(_) => st == Blocked
    case ExitWaiters(_) => st == Blocked
    case Waiters(_) => st == Blocked
  }

  function StatusOf(procs: map<int, Proc>, p: int): Status {
    if p in procs then procs[p].status else Dead
  }

  function Mark(procs: map<int, Proc>, p: int, st: Status): map<int, Proc> {
    if p in procs then procs[p := procs[p].(status := st)] else procs
  }

  function MarkAll(procs: map<int, Proc>, ps: seq<int>, st: Status): map<int, Proc> {
    map p | p in procs :: if p in ps then procs[p].(status := st) else procs[p]
  }

  function Put(s: State, q: Qid, l: seq<int>): State {
    s.(lists := s.lists[q := l])
  }

  // Switching.

  function Postpone(s: State): State {
    s.(locks := s.locks + 1)
  }

  /** The first ready process becomes the current one. */
  function Dispatch(s: State): State
    requires List(s.lists, ReadyQ) != []
  {
    var n := List(s.lists, ReadyQ)[0];
    Put(s, ReadyQ, List(s.lists, ReadyQ)[1..])
      .(procs := Mark(s.procs, n, Running), current := n, quantum := QUANTUM, log := s.log.(ran := s.log.ran + [n]))
  }

  /** The switch proper: a current process that is still running goes to the back of the queue. */
  function Switch(s: State): State {
    if List(s.lists, ReadyQ) == [] then s
    else if StatusOf(s.procs, s.current) == Running then
      Dispatch(Put(s, ReadyQ, List(s.lists, ReadyQ) + [s.current]).(procs := Mark(s.procs, s.current, Runnable)))
    else Dispatch(s)
  }

  /** schedule_advance. */
  function Advance(s: State): State {
    if s.locks > 0 then s.(flag := true) else Switch(s)
  }

  /** sched_resume. */
  function Resume(s: State): State {
    var s1 := if s.locks > 0 then s.(locks := s.locks - 1) else s;
    if s1.locks == 0 && s1.flag then Switch(s1.(flag := false)) else s1
  }

  // Waking and sleeping.

  /** The first n processes of q go to the back of the ready queue. */
  function WakeMany(s: State, q: Qid, n: nat): State
    requires n <= |List(s.lists, q)|
  {
    if n == 0 then s else
      Put(Put(s, q, List(s.lists, q)[n..]), ReadyQ, List(s.lists, ReadyQ) + List(s.lists, q)[..n])
        .(procs := MarkAll(s.procs, List(s.lists, q)[..n], Runnable))
  }

  /** wait_queue_wake_one. */
  function WakeOne(s: State, q: Qid): State {
    var s1 := Postpone(s);
    Resume(WakeMany(s1, q, if List(s.lists, q) == [] then 0 else 1))
  }

  /** wait_queue_wake_all. */
  function WakeAll(s: State, q: Qid): State {
    Resume(WakeMany(Postpone(s), q, |List(s.lists, q)|))
  }

  /** The current process joins q and is blocked. */
  function BlockOn(s: State, q: Qid): State {
    Advance(Put(s, q, List(s.lists, q) + [s.current]).(procs := Mark(s.procs, s.current, Blocked)))
  }

  /** wait_queue_sleep. */
  function Block(s: State, q: Qid): State {
    Resume(BlockOn(Postpone(s), q))
  }

  /** How many processes at the front of l are due at time ts. */
  function Due(procs: map<int, Proc>, l: seq<int>, ts: nat): (n: nat)
    ensures n <= |l|
  {
    if l != [] && l[0] in procs && procs[l[0]].sleepUntil <= ts then 1 + Due(procs, l[1..], ts) else 0
  }

  /** sleep_proc_until for the current process. */
  function SleepUntil(s: State, ts: nat): State
    requires s.current in s.procs
  {
    var l := List(s.lists, SleepingQ);
    var n := Due(s.procs, l, ts);
    Resume(Advance(Put(Postpone(s), SleepingQ, l[..n] + [s.current] + l[n..])
      .(procs := s.procs[s.current := s.procs[s.current].(status := Sleeping, sleepUntil := ts)])))
  }

  /** The end of the quantum asks for a switch. */
  function Charge(s: State, interval: nat): State {
    if s.quantum == 0 then s
    else if s.quantum <= interval then Advance(s)
    else s.(quantum := s.quantum - interval)
  }

  /** handle_timer. */
  function Tick(s: State, ts: nat, interval: nat): State {
    Resume(Charge(WakeMany(Postpone(s), SleepingQ, Due(s.procs, List(s.lists, SleepingQ), ts)), interval))
  }

  // Processes come and go.

  function NoChildren(): seq<int> {
    seq(MAX_CHILDREN, _ => 0)
  }

  /** A new process, added by sched_add_proc. */
  function Add(s: State, p: int): State {
    Resume(Put(Postpone(s), ReadyQ, List(s.lists, ReadyQ) + [p])
      .(procs := s.procs[p := Proc(s.total + 1, Uninitialized, 0, 0, NoChildren(), 0)], total := s.total + 1))
  }

  /** The first slot from i on that holds c; |children| if there is none. */
  function SlotFrom(children: seq<int>, c: int, i: nat): (k: nat)
    requires i <= |children|
    ensures i <= k <= |children| && (k < |children| ==> children[k] == c)
    ensures forall j :: i <= j < k ==> children[j] != c
    decreases |children| - i
  {
    if i == |children| || children[i] == c then i else SlotFrom(children, c, i + 1)
  }

  /** The first slot from 1 on that holds c. */
  function SlotOf(children: seq<int>, c: int): (k: nat)
    ensures k <= |children|
  {
    if |children| == 0 then 0 else SlotFrom(children, c, 1)
  }

  /** fork_proc for the current process; c is the new process. */
  function Fork(s: State, c: int): State
    requires s.current in s.procs
  {
    var me := s.procs[s.current];
    var slot := SlotOf(me.children, 0);
    if slot >= |me.children| then s
    else
      Put(s, ReadyQ, List(s.lists, ReadyQ) + [c])
        .(procs := s.procs[c := Proc(s.total + 1, Runnable, 0, s.current, NoChildren(), 0)]
                          [s.current := me.(children := me.children[slot := c])],
          total := s.total + 1)
  }

  /** The queue that mp_remove_proc takes a process out of, by its status. */
  function Leave(s: State, p: int): State {
    match StatusOf(s.procs, p)
    case Runnable => Put(s, ReadyQ, Without(List(s.lists, ReadyQ), p))
    case Uninitialized => Put(s, ReadyQ, Without(List(s.lists, ReadyQ), p))
    case Sleeping => Put(s, SleepingQ, Without(List(s.lists, SleepingQ), p))
    case _ => s
  }

  /** A process leaves its queue for that of the dead. */
  function Bury(s: State, p: int, code: int): State
    requires p in s.procs
  {
    var s1 := if p != s.current then Leave(s, p) else s;
    Put(s1, DyingQ, [p] + List(s1.lists, DyingQ))
      .(procs := s.procs[p := s.procs[p].(exitCode := code, status := Dead)],
        waits := s.waits - {p}, log := s.log.(ended := s.log.ended + [p]))
  }

  /** A process becomes dead and asks for a switch. */
  function Die(s: State, p: int, code: int): State
    requires p in s.procs
  {
    Advance(Bury(s, p, code))
  }

  /** Whoever waits for p wakes up. */
  function Notify(s: State, p: int): State
    requires p in s.procs
  {
    if s.procs[p].parent == 0 then s
    else WakeAll(WakeAll(s, ExitWaiters(p)), ChildWaiters(s.procs[p].parent))
  }

  /** proc_exit. */
  function Exit(s: State, p: int, code: int): State
    requires p in s.procs
  {
    if s.procs[p].status == Dead then Resume(Postpone(s))
    else Resume(Notify(Die(Postpone(s), p, code), p))
  }

  function Orphan(procs: map<int, Proc>, children: seq<int>): map<int, Proc> {
    map c | c in procs :: if c != 0 && c in children then procs[c].(parent := 0) else procs[c]
  }

  /** The parent forgets p. */
  function Disown(procs: map<int, Proc>, p: int): map<int, Proc>
    requires p in procs
  {
    var parent := procs[p].parent;
    if parent == 0 || parent !in procs then procs
    else
      var slot := SlotOf(procs[parent].children, p);
      if slot >= |procs[parent].children| then procs
      else procs[parent := procs[parent].(children := procs[parent].children[slot := 0])]
  }

  /** proc_free. */
  function FreeProc(s: State, p: int): State
    requires p in s.procs
  {
    s.(procs := Orphan(Disown(s.procs, p), s.procs[p].children) - {p},
      log := s.log.(freed := s.log.freed + [s.procs[p].pid]))
  }

  /** The first loop of the terminator: release the dead without a parent, set the others aside. */
  function Sift(s: State): State
    decreases |List(s.lists, DyingQ)|
  {
    var l := List(s.lists, DyingQ);
    if l == [] then s
    else
      var s1 := Put(s, DyingQ, l[1..]);
      if l[0] !in s.procs then Sift(s1)
      else if s.procs[l[0]].parent != 0 then Sift(Put(s1, LocalQ, [l[0]] + List(s.lists, LocalQ)))
      else Sift(FreeProc(s1, l[0]))
  }

  /** The second loop: what was set aside goes back. */
  function Requeue(s: State): State
    decreases |List(s.lists, LocalQ)|
  {
    var l := List(s.lists, LocalQ);
    if l == [] then s else Requeue(Put(Put(s, LocalQ, l[1..]), DyingQ, List(s.lists, DyingQ) + [l[0]]))
  }

  /** One pass of the terminator. */
  function Reap(s: State): State {
    Resume(Requeue(Sift(Postpone(s))))
  }

  // Waiting for children.

  predicate Matches(procs: map<int, Proc>, c: int, pid: int) {
    c != 0 && c in procs && (pid == -1 || procs[c].pid == pid)
  }

  predicate Collectable(procs: map<int, Proc>, c: int, pid: int) {
    Matches(procs, c, pid) && procs[c].status == Dead
  }

  function FirstDead(procs: map<int, Proc>, children: seq<int>, pid: int, i: nat): (k: nat)
    requires i <= |children|
    ensures i <= k <= |children| && (k < |children| ==> Collectable(procs, children[k], pid))
    ensures forall j :: i <= j < k ==> !Collectable(procs, children[j], pid)
    decreases |children| - i
  {
    if i == |children| || Collectable(procs, children[i], pid) then i else FirstDead(procs, children, pid, i + 1)
  }

  function FirstMatch(procs: map<int, Proc>, children: seq<int>, pid: int, i: nat): (k: nat)
    requires i <= |children|
    ensures i <= k <= |children| && (k < |children| ==> Matches(procs, children[k], pid))
    ensures forall j :: i <= j < k ==> !Matches(procs, children[j], pid)
    decreases |children| - i
  {
    if i == |children| || Matches(procs, children[i], pid) then i else FirstMatch(procs, children, pid, i + 1)
  }

  /** wait_child_find: the slot of the first dead match, or of the first match, or none. */
  function FindChild(procs: map<int, Proc>, children: seq<int>, pid: int): (k: nat)
    requires |children| > 0
    ensures 1 <= k <= |children|
  {
    var d := FirstDead(procs, children, pid, 1);
    if d < |children| then d else FirstMatch(procs, children, pid, 1)
  }

  datatype Reply = Invalid | NoChild | NothingYet | Asleep | Collected(pid: nat, word: int)

  /** process_wait_collect. */
  function Collect(s: State, c: int, slot: nat): (State, Reply)
    requires c in s.procs && s.current in s.procs && slot < |s.procs[s.current].children|
  {
    var me := s.procs[s.current];
    var procs1 := s.procs[s.current := me.(children := me.children[slot := 0])];
    var procs2 := procs1[c := procs1[c].(parent := 0)];
    var s1 := Put(s, DyingQ, Without(List(s.lists, DyingQ), c)).(procs := procs2);
    (FreeProc(s1, c), Collected(s.procs[c].pid, s.procs[c].exitCode % 256 * 256))
  }

  /** waitpid_proc up to the point where it sleeps or returns. */
  function WaitBegin(s: State, pid: int, options: int): (State, Reply)
    requires s.current in s.procs && |s.procs[s.current].children| > 0
  {
    var children := s.procs[s.current].children;
    if (options != 0 && options != 1) || pid == 0 || pid < -1 then (s, Invalid)
    else
      var s1 := Postpone(s);
      var slot := FindChild(s.procs, children, pid);
      if slot >= |children| then (Resume(s1), NoChild)
      else
        var c := children[slot];
        if c in s.procs && s.procs[c].status == Dead then
          var r := Collect(s1, c, slot); (Resume(r.0), r.1)
        else if options == 1 then (Resume(s1), NothingYet)
        else if pid == -1 then
          (Resume(BlockOn(s1.(waits := s.waits[s.current := AnyChild]), ChildWaiters(s.current))), Asleep)
        else
          (Resume(BlockOn(s1.(waits := s.waits[s.current := Child(c, slot, pid)]), ExitWaiters(c))), Asleep)
  }

  /** The rest of waitpid_proc, after it was woken. */
  function WaitEnd(s: State): (State, Reply)
    requires s.current in s.procs && |s.procs[s.current].children| > 0 && s.current in s.waits
  {
    var children := s.procs[s.current].children;
    var s1 := Postpone(s).(waits := s.waits - {s.current});
    var slot := match s.waits[s.current] case AnyChild => FindChild(s.procs, children, -1) case Child(_, k, _) => k;
    var c := match s.waits[s.current] case AnyChild => At(children, slot) case Child(c, _, _) => c;
    if slot < |children| && c in s.procs && s.procs[c].status == Dead then
      var r := Collect(s1, c, slot); (Resume(r.0), r.1)
    else (Resume(s1), NoChild)
  }

  // Semaphores.

  function Asked(log: Log, id: int): seq<int> {
    if id in log.asked then log.asked[id] else []
  }

  function Granted(log: Log, id: int): seq<int> {
    if id in log.granted then log.granted[id] else []
  }

  function Holders(log: Log, id: int): multiset<int> {
    if id in log.holders then log.holders[id] else multiset{}
  }

  function Ask(log: Log, id: int, p: int): Log {
    log.(asked := log.asked[id := Asked(log, id) + [p]])
  }

  function Grant(log: Log, id: int, p: int): Log {
    log.(granted := log.granted[id := Granted(log, id) + [p]],
      holders := log.holders[id := Holders(log, id) + multiset{p}])
  }

  function GiveUp(log: Log, id: int, p: int): Log {
    log.(holders := log.holders[id := Holders(log, id) - multiset{p}])
  }

  /** semaphore_lock. */
  function Lock(s: State, id: int): State
    requires id in s.sems
  {
    var sem := s.sems[id];
    var s1 := Postpone(s).(log := Ask(s.log, id, s.current));
    Resume(
      if sem.locks < sem.limit then s1.(sems := s.sems[id := sem.(locks := sem.locks + 1)],
        log := Grant(s1.log, id, s.current))
      else Block(s1, Waiters(id)))
  }

  /** semaphore_try_lock. */
  function TryLock(s: State, id: int): (State, bool)
    requires id in s.sems
  {
    var sem := s.sems[id];
    if sem.locks < sem.limit then (Resume(Lock(Postpone(s), id)), true) else (Resume(Postpone(s)), false)
  }

  /** semaphore_unlock; current_locks is an unsigned byte. */
  function Unlock(s: State, id: int): State
    requires id in s.sems
  {
    var sem := s.sems[id];
    var s1 := Postpone(s).(log := GiveUp(s.log, id, s.current));
    var l := List(s.lists, Waiters(id));
    Resume(
      if l != [] then WakeOne(s1.(log := Grant(s1.log, id, l[0])), Waiters(id))
      else s1.(sems := s.sems[id := sem.(locks := (sem.locks + 255) % 256)]))
  }
}
