/** The process queues of the scheduler.  All of them thread through the one `next` field of a
    process, so that each operation has to leave every other queue alone.  A process is named by
    its address, 0 being the null pointer; releasing one removes it from `next`.
  */
module ProcQueue {
  import opened Seqs

  /** Ready, sleeping and dying processes, the terminator's own queue, the two wait queues of a
      process, and every other wait queue. */
  datatype Qid =
    | ReadyQ | SleepingQ | DyingQ | LocalQ
    | ChildWaiters(proc: int) | ExitWaiters(proc: int) | Waiters(id: int)

  predicate IsWaitQueue(q: Qid) {
    q.ChildWaiters? || q.ExitWaiters? || q.Waiters?
  }

  datatype Queue = Queue(head: int, tail: int)

  type Lists = map<Qid, seq<int>>

  function List(lists: Lists, q: Qid): seq<int> {
    if q in lists then lists[q] else []
  }

  function QueueOf(queues: map<Qid, Queue>, q: Qid): Queue {
    if q in queues then queues[q] else Queue(0, 0)
  }

  /** The queue holds exactly s.  With `stale`, the tail counts only while there is a process. */
  ghost predicate Holds(next: map<int, int>, h: Queue, s: seq<int>, stale: bool) {
    && h.head == At(s, 0)
    && (s != [] || !stale ==> h.tail == Last(s))
    && forall k :: 0 <= k < |s| ==> LinkAt(next, s, k)
  }

  ghost predicate In(lists: Lists, q: Qid, p: int) {
    p in List(lists, q)
  }

  /** No process is in two queues, or in one queue twice. */
  ghost predicate Separate(lists: Lists) {
    && (forall q :: Distinct(List(lists, q)))
    && forall q, q', p :: In(lists, q, p) && In(lists, q', p) ==> q == q'
  }

  /** The queues hold their lists, and only those being drained may have a stale tail. */
  ghost predicate Rep(next: map<int, int>, queues: map<Qid, Queue>, lists: Lists, draining: set<Qid>) {
    forall q :: Holds(next, QueueOf(queues, q), List(lists, q), q in draining)
  }

  /** Head and tail of every queue are the two ends of its list. */
  ghost predicate Ends(queues: map<Qid, Queue>, lists: Lists) {
    forall q :: EndsAt(QueueOf(queues, q), List(lists, q))
  }

  ghost predicate EndsAt(h: Queue, s: seq<int>) {
    h == Queue(At(s, 0), Last(s))
  }

  lemma EndsExact(next: map<int, int>, queues: map<Qid, Queue>, lists: Lists)
    requires Rep(next, queues, lists, {})
    ensures Ends(queues, lists)
  {
    forall q ensures EndsAt(QueueOf(queues, q), List(lists, q)) {
      assert Holds(next, QueueOf(queues, q), List(lists, q), q in {});
    }
  }

  ghost predicate Free(lists: Lists, p: int) {
    forall q :: !In(lists, q, p)
  }

  /** p may be linked anew by an operation on q. */
  ghost predicate Mine(lists: Lists, q: Qid, p: int) {
    In(lists, q, p) || Free(lists, p)
  }

  /** One queue is replaced; only links of its own or of unqueued processes change. */
  lemma Replace(next: map<int, int>, next': map<int, int>, queues: map<Qid, Queue>,
                lists: Lists, q: Qid, h: Queue, s: seq<int>, draining: set<Qid>)
    requires Rep(next, queues, lists, draining) && Separate(lists)
    requires Holds(next', h, s, q in draining) && Distinct(s)
    requires forall p :: p in s ==> Mine(lists, q, p)
    requires forall p :: p in next ==> p in next' && (next'[p] == next[p] || Mine(lists, q, p))
    ensures Rep(next', queues[q := h], lists[q := s], draining) && Separate(lists[q := s])
  {
    hide Holds;
    var lists' := lists[q := s];
    forall q' ensures Holds(next', QueueOf(queues[q := h], q'), List(lists', q'), q' in draining) {
      if q' != q {
        assert Holds(next, QueueOf(queues, q'), List(lists, q'), q' in draining);
        OthersKept(next, next', lists, q, q', QueueOf(queues, q'), q' in draining);
      }
    }
    forall q1, q2, p | In(lists', q1, p) && In(lists', q2, p) ensures q1 == q2 {
      assert q1 != q ==> In(lists, q1, p);
      assert q2 != q ==> In(lists, q2, p);
    }
    forall q' ensures Distinct(List(lists', q')) {
      assert q' != q ==> Distinct(List(lists, q'));
    }
  }

  lemma OthersKept(next: map<int, int>, next': map<int, int>, lists: Lists, q: Qid, q': Qid, h: Queue, stale: bool)
    requires Separate(lists) && q' != q && Holds(next, h, List(lists, q'), stale)
    requires forall p :: p in next ==> p in next' && (next'[p] == next[p] || Mine(lists, q, p))
    ensures Holds(next', h, List(lists, q'), stale)
  {
    var t := List(lists, q');
    forall k | 0 <= k < |t| ensures LinkAt(next', t, k) {
      assert LinkAt(next, t, k) && In(lists, q', t[k]);
    }
  }

  lemma HoldsAt(next: map<int, int>, h: Queue, s: seq<int>, stale: bool, k: int)
    requires Holds(next, h, s, stale)
    ensures h.head == At(s, 0) && (s != [] || !stale ==> h.tail == Last(s)) && (h.head == 0 <==> s == [])
    ensures 0 <= k < |s| ==> LinkAt(next, s, k)
    ensures forall p :: p in s ==> p in next && p != 0
  {
    assert s != [] ==> LinkAt(next, s, 0);
    forall p | p in s ensures p in next && p != 0 {
      var j :| 0 <= j < |s| && s[j] == p;
      assert LinkAt(next, s, j);
    }
  }

  lemma HoldsPushHead(next: map<int, int>, h: Queue, s: seq<int>, p: int)
    requires Holds(next, h, s, false) && p != 0 && p !in s
    ensures Holds(next[p := h.head], Queue(p, if h.tail == 0 then p else h.tail), [p] + s, false)
  {
    HoldsAt(next, h, s, false, |s| - 1);
    var s', next' := [p] + s, next[p := h.head];
    forall k | 0 <= k < |s'| ensures LinkAt(next', s', k) {
      if k > 0 { assert LinkAt(next, s, k - 1); }
    }
  }

  lemma HoldsPushTail(next: map<int, int>, h: Queue, s: seq<int>, p: int, stale: bool)
    requires Holds(next, h, s, stale) && p != 0 && p !in s && Distinct(s)
    ensures s == [] ==> Holds(next[p := 0], Queue(p, p), [p], stale)
    ensures s != [] ==> Holds(next[p := 0][h.tail := p], Queue(h.head, p), s + [p], stale)
  {
    HoldsAt(next, h, s, stale, |s| - 1);
    if s == [] {
      assert LinkAt(next[p := 0], [p], 0);
    } else {
      var s', next' := s + [p], next[p := 0][h.tail := p];
      forall k | 0 <= k < |s'| ensures LinkAt(next', s', k) {
        if k < |s| { assert LinkAt(next, s, k); }
      }
    }
  }

  /** Also with the tail left as it was, which a wait queue may do. */
  lemma HoldsPop(next: map<int, int>, h: Queue, s: seq<int>, stale: bool)
    requires Holds(next, h, s, stale) && s != [] && Distinct(s)
    ensures h.head == s[0] && s[0] in next
    ensures Holds(next[s[0] := 0], Queue(next[s[0]], if next[s[0]] == 0 then 0 else h.tail), s[1..], stale)
    ensures stale ==> Holds(next[s[0] := 0], Queue(next[s[0]], h.tail), s[1..], stale)
  {
    HoldsAt(next, h, s, stale, 0);
    HoldsAt(next, h, s, stale, 1);
    var s', next' := s[1..], next[s[0] := 0];
    forall k | 0 <= k < |s'| ensures LinkAt(next', s', k) {
      assert LinkAt(next, s, k + 1);
    }
  }

  lemma HoldsInsert(next: map<int, int>, h: Queue, s: seq<int>, k: nat, p: int)
    requires Holds(next, h, s, false) && Distinct(s) && k < |s| && p != 0 && p !in s
    ensures s[k] in next
    ensures Holds(next[p := next[s[k]]][s[k] := p], h.(tail := if h.tail == s[k] then p else h.tail),
      s[..k + 1] + [p] + s[k + 1..], false)
  {
    HoldsAt(next, h, s, false, k);
    var s', next' := s[..k + 1] + [p] + s[k + 1..], next[p := next[s[k]]][s[k] := p];
    forall j | 0 <= j < |s'| ensures LinkAt(next', s', j) {
      if j <= k { assert LinkAt(next, s, j); }
      else if j > k + 1 { assert LinkAt(next, s, j - 1) && s'[j] == s[j - 1]; }
    }
  }

  lemma HoldsRemove(next: map<int, int>, h: Queue, s: seq<int>, k: nat)
    requires Holds(next, h, s, false) && Distinct(s) && k < |s|
    ensures s[k] in next
    ensures k == 0 ==>
      Holds(next[s[k] := 0], Queue(next[s[k]], if h.tail == s[k] then 0 else h.tail), RemoveAt(s, k), false)
    ensures k > 0 ==> Holds(next[s[k - 1] := next[s[k]]][s[k] := 0],
                            h.(tail := if h.tail == s[k] then s[k - 1] else h.tail), RemoveAt(s, k), false)
  {
    HoldsAt(next, h, s, false, k);
    var s' := RemoveAt(s, k);
    var next' := if k == 0 then next[s[k] := 0] else next[s[k - 1] := next[s[k]]][s[k] := 0];
    forall j | 0 <= j < |s'| ensures LinkAt(next', s', j) {
      if j < k { assert LinkAt(next, s, j); }
      else { assert LinkAt(next, s, j + 1) && s'[j] == s[j + 1]; }
    }
  }

  /** Cutting a queue after its n-th process. */
  lemma HoldsCut(next: map<int, int>, h: Queue, s: seq<int>, n: nat)
    requires Holds(next, h, s, false) && Distinct(s) && 0 < n <= |s|
    ensures s[n - 1] in next
    ensures Holds(next[s[n - 1] := 0], Queue(next[s[n - 1]], if h.tail == s[n - 1] then 0 else h.tail), s[n..], false)
    ensures Holds(next[s[n - 1] := 0], Queue(h.head, s[n - 1]), s[..n], false)
  {
    HoldsAt(next, h, s, false, n - 1);
    var next' := next[s[n - 1] := 0];
    forall k | 0 <= k < |s| - n ensures LinkAt(next', s[n..], k) {
      assert LinkAt(next, s, n + k);
    }
    forall k | 0 <= k < n ensures LinkAt(next', s[..n], k) {
      assert LinkAt(next, s, k);
    }
  }

  /** Joining two queues. */
  lemma HoldsJoin(next: map<int, int>, h: Queue, s: seq<int>, h': Queue, t: seq<int>)
    requires Holds(next, h, s, false) && Holds(next, h', t, false) && s != [] && t != [] && Distinct(s) && Distinct(t)
    requires forall p :: p in s ==> p !in t
    ensures Holds(next[h.tail := h'.head], Queue(h.head, h'.tail), s + t, false)
  {
    HoldsAt(next, h, s, false, |s| - 1);
    HoldsAt(next, h', t, false, |t| - 1);
    var r, next' := s + t, next[h.tail := h'.head];
    assert h.tail in s;
    forall k | 0 <= k < |r| ensures LinkAt(next', r, k) {
      if k < |s| { assert LinkAt(next, s, k); } else { assert LinkAt(next, t, k - |s|); }
    }
  }

  /** s without its first p. */
  function Without(s: seq<int>, p: int): seq<int> {
    if s == [] then [] else if s[0] == p then s[1..] else [s[0]] + Without(s[1..], p)
  }

  lemma {:induction false} WithoutAt(s: seq<int>, k: nat)
    requires k < |s| && Distinct(s)
    ensures Without(s, s[k]) == RemoveAt(s, k)
  {
    if k > 0 {
      assert s[0] != s[k];
      WithoutAt(s[1..], k - 1);
      assert RemoveAt(s, k) == [s[0]] + RemoveAt(s[1..], k - 1);
    } else {
      assert RemoveAt(s, 0) == s[1..];
    }
  }

  lemma {:induction false} WithoutNone(s: seq<int>, p: int)
    requires p !in s
    ensures Without(s, p) == s
  {
    if s != [] { WithoutNone(s[1..], p); }
  }

  lemma JoinDistinct(s: seq<int>, t: seq<int>)
    requires Distinct(s) && Distinct(t) && forall p :: p in t ==> p !in s
    ensures Distinct(s + t)
  {
    var r := s + t;
    forall i, j | 0 <= i < j < |r| ensures r[i] != r[j] {
      assert i < |s| <= j ==> r[i] in s && r[j] in t;
    }
  }

  lemma Unlinked(next: map<int, int>, next': map<int, int>, h: Queue, s: seq<int>, stale: bool)
    requires Holds(next, h, s, stale) && forall p :: p in s && p in next ==> p in next' && next'[p] == next[p]
    ensures Holds(next', h, s, stale)
  {
    forall k | 0 <= k < |s| ensures LinkAt(next', s, k) { assert LinkAt(next, s, k); }
  }

  lemma RemoveMembers(s: seq<int>, k: nat)
    requires k < |s| && Distinct(s)
    ensures Distinct(RemoveAt(s, k)) && s[k] !in RemoveAt(s, k)
    ensures forall p :: p in RemoveAt(s, k) <==> p in s && p != s[k]
  {
    forall p | p in s && p != s[k] ensures p in RemoveAt(s, k) {
      var j :| 0 <= j < |s| && s[j] == p;
      assert RemoveAt(s, k)[if j < k then j else j - 1] == p;
    }
  }

  /** A process taken out of its queue is in none. */
  lemma Freed(lists: Lists, q: Qid, k: nat, lists': Lists)
    requires Separate(lists) && k < |List(lists, q)| && lists' == lists[q := RemoveAt(List(lists, q), k)]
    ensures Free(lists', List(lists, q)[k])
  {
    var s := List(lists, q);
    RemoveMembers(s, k);
    assert In(lists, q, s[k]);
    forall q' ensures !In(lists', q', s[k]) {
      assert q' != q ==> !In(lists, q', s[k]);
    }
  }

  lemma FreedPrefix(lists: Lists, q: Qid, n: nat, lists': Lists, p: int)
    requires Separate(lists) && n <= |List(lists, q)| && lists' == lists[q := List(lists, q)[n..]]
    requires p in List(lists, q)[..n]
    ensures Free(lists', p)
  {
    assert In(lists, q, p);
    forall q' ensures !In(lists', q', p) {
      assert q' != q ==> !In(lists, q', p);
    }
  }

  lemma DrainMore(next: map<int, int>, queues: map<Qid, Queue>, lists: Lists, draining: set<Qid>, q: Qid)
    requires Rep(next, queues, lists, draining)
    ensures Rep(next, queues, lists, draining + {q})
  {
    forall q' ensures Holds(next, QueueOf(queues, q'), List(lists, q'), q' in draining + {q}) {
      assert Holds(next, QueueOf(queues, q'), List(lists, q'), q' in draining);
    }
  }

  /** While a queue is being drained by wait_queue_wake_all, and only then, its tail may be stale;
      `draining` names such queues. */
  class Queues {
    var next: map<int, int>
    var queues: map<Qid, Queue>
    ghost var lists: Lists
    ghost var draining: set<Qid>

    ghost predicate Valid()
      reads this
    {
      Rep(next, queues, lists, draining) && Separate(lists)
    }

    constructor ()
      ensures Valid() && lists == map[] && next == map[] && draining == {}
    {
      next, queues, lists, draining := map[], map[], map[], {};
    }

    /** What every queue operation starts from. */
    lemma Look(q: Qid, k: int)
      requires Valid()
      ensures Holds(next, QueueOf(queues, q), List(lists, q), q in draining) && Distinct(List(lists, q))
      ensures QueueOf(queues, q).head == At(List(lists, q), 0)
      ensures (QueueOf(queues, q).head == 0 <==> List(lists, q) == [])
      ensures 0 <= k < |List(lists, q)| ==> LinkAt(next, List(lists, q), k)
      ensures forall p :: p in List(lists, q) ==> p in next && p != 0 && Mine(lists, q, p)
      ensures forall p :: Free(lists, p) ==> p !in List(lists, q) && Mine(lists, q, p)
    {
      HoldsAt(next, QueueOf(queues, q), List(lists, q), q in draining, k);
      forall p | p in List(lists, q) ensures Mine(lists, q, p) { assert In(lists, q, p); }
      forall p | Free(lists, p) ensures p !in List(lists, q) { assert !In(lists, q, p); }
    }

    /** proc_queue_push_head. */
    method PushHead(q: Qid, p: int)
      requires Valid() && q !in draining && p != 0 && p in next && Free(lists, p)
      modifies `next, `queues, `lists
      ensures Valid() && lists == old(lists)[q := [p] + List(old(lists), q)]
      ensures next.Keys == old(next.Keys)
    {
      hide Rep, Separate, Holds, Free, Mine;
      Look(q, 0);
      ghost var next0, queues0, lists0, s := next, queues, lists, List(lists, q);
      var h := QueueOf(queues, q);
      HoldsPushHead(next, h, s, p);
      next := next[p := h.head];
      h := h.(head := p);
      if h.tail == 0 { h := h.(tail := p); }
      queues := queues[q := h];
      lists := lists[q := [p] + s];
      Replace(next0, next, queues0, lists0, q, h, [p] + s, draining);
    }

    /** proc_queue_push_tail; also how wait_queue.c enqueues the current process. */
    method PushTail(q: Qid, p: int)
      requires Valid() && p != 0 && p in next && Free(lists, p)
      modifies `next, `queues, `lists
      ensures Valid() && lists == old(lists)[q := List(old(lists), q) + [p]]
      ensures next.Keys == old(next.Keys)
    {
      hide Rep, Separate, Holds, Free, Mine;
      Look(q, |List(lists, q)| - 1);
      ghost var next0, queues0, lists0, s := next, queues, lists, List(lists, q);
      var h := QueueOf(queues, q);
      HoldsPushTail(next, h, s, p, q in draining);
      HoldsAt(next, h, s, q in draining, |s| - 1);
      next := next[p := 0];
      if h.head == 0 {
        h := Queue(p, p);
      } else {
        next := next[h.tail := p];
        h := h.(tail := p);
      }
      queues := queues[q := h];
      lists := lists[q := s + [p]];
      assert s == [] ==> s + [p] == [p];
      Replace(next0, next, queues0, lists0, q, h, s + [p], draining);
    }

    /** proc_queue_pop_head; 0 from an empty queue. */
    method PopHead(q: Qid) returns (p: int)
      requires Valid()
      modifies `next, `queues, `lists
      ensures Valid() && p == At(List(old(lists), q), 0) && next.Keys == old(next.Keys)
      ensures p == 0 ==> List(old(lists), q) == [] && lists == old(lists)
      ensures p != 0 ==> List(old(lists), q) != [] && Free(lists, p)
      ensures p != 0 ==> lists == old(lists)[q := List(old(lists), q)[1..]]
    {
      hide Rep, Separate, Holds, Free, Mine;
      Look(q, 0);
      ghost var next0, queues0, lists0, s := next, queues, lists, List(lists, q);
      var h := QueueOf(queues, q);
      if h.head == 0 { return 0; }
      HoldsPop(next, h, s, q in draining);
      p := h.head;
      h := h.(head := next[p]);
      if h.head == 0 { h := h.(tail := 0); }
      next := next[p := 0];
      queues := queues[q := h];
      lists := lists[q := s[1..]];
      Replace(next0, next, queues0, lists0, q, h, s[1..], draining);
      assert RemoveAt(s, 0) == s[1..];
      Freed(lists0, q, 0, lists);
    }

    /** The step of wait_queue_wake_all, which leaves the tail for the end. */
    method DropHead(q: Qid) returns (p: int)
      requires Valid() && List(lists, q) != []
      modifies this
      ensures draining == old(draining) + {q}
      ensures Valid() && p == List(old(lists), q)[0] && p != 0 && next.Keys == old(next.Keys)
      ensures lists == old(lists)[q := List(old(lists), q)[1..]] && Free(lists, p)
    {
      hide Rep, Separate, Holds, Free, Mine;
      DrainMore(next, queues, lists, draining, q);
      draining := draining + {q};
      Look(q, 0);
      ghost var next0, queues0, lists0, s := next, queues, lists, List(lists, q);
      var h := QueueOf(queues, q);
      HoldsPop(next, h, s, true);
      p := h.head;
      h := h.(head := next[p]);
      next := next[p := 0];
      queues := queues[q := h];
      lists := lists[q := s[1..]];
      Replace(next0, next, queues0, lists0, q, h, s[1..], draining);
      assert RemoveAt(s, 0) == s[1..];
      Freed(lists0, q, 0, lists);
    }

    /** The end of wait_queue_wake_all. */
    method ClearTail(q: Qid)
      requires Valid() && List(lists, q) == []
      modifies `queues, `draining
      ensures Valid() && draining == old(draining) - {q}
      ensures queues == old(queues)[q := Queue(0, 0)]
    {
      Look(q, 0);
      ghost var queues0, draining0 := queues, draining;
      queues := queues[q := QueueOf(queues, q).(tail := 0)];
      draining := draining - {q};
      forall q' ensures Holds(next, QueueOf(queues, q'), List(lists, q'), q' in draining) {
        assert Holds(next, QueueOf(queues0, q'), List(lists, q'), q' in draining0);
      }
    }

    /** proc_queue_insert_after. */
    method InsertAfter(q: Qid, after: int, p: int, ghost k: nat)
      requires Valid() && q !in draining && p != 0 && p in next && Free(lists, p)
      requires k < |List(lists, q)| && after == List(lists, q)[k]
      modifies `next, `queues, `lists
      ensures Valid() && next.Keys == old(next.Keys)
      ensures lists == old(lists)[q := List(old(lists), q)[..k + 1] + [p] + List(old(lists), q)[k + 1..]]
    {
      hide Rep, Separate, Holds, Free, Mine;
      Look(q, k);
      ghost var next0, queues0, lists0, s := next, queues, lists, List(lists, q);
      var h := QueueOf(queues, q);
      HoldsInsert(next, h, s, k, p);
      next := next[p := next[after]];
      next := next[after := p];
      if h.tail == after { h := h.(tail := p); }
      queues := queues[q := h];
      ghost var s' := s[..k + 1] + [p] + s[k + 1..];
      lists := lists[q := s'];
      Replace(next0, next, queues0, lists0, q, h, s', draining);
    }

    /** proc_queue_remove. */
    method Remove(q: Qid, p: int) returns (found: bool)
      requires Valid() && q !in draining && p != 0
      modifies `next, `queues, `lists
      ensures Valid() && next.Keys == old(next.Keys) && (found <==> p in List(old(lists), q))
      ensures !found ==> lists == old(lists)
      ensures found ==> Free(lists, p) && lists == old(lists)[q := Without(List(old(lists), q), p)]
    {
      hide Rep, Separate, Holds, Free, Mine, RemoveAt;
      Look(q, 0);
      ghost var next0, queues0, lists0, s := next, queues, lists, List(lists, q);
      var h := QueueOf(queues, q);
      var prev, curr := 0, h.head;
      ghost var k := 0;
      while curr != 0
        invariant next == next0 && queues == queues0 && lists == lists0
        invariant k <= |s| && curr == At(s, k) && prev == At(s, k - 1) && p !in s[..k]
        decreases |s| - k
      {
        Look(q, k);
        Look(q, k - 1);
        if curr == p {
          HoldsRemove(next, h, s, k);
          if prev == 0 {
            h := h.(head := next[curr]);
          } else {
            next := next[prev := next[curr]];
          }
          if h.tail == curr { h := h.(tail := prev); }
          next := next[curr := 0];
          queues := queues[q := h];
          lists := lists[q := RemoveAt(s, k)];
          RemoveMembers(s, k);
          Replace(next0, next, queues0, lists0, q, h, RemoveAt(s, k), draining);
          Freed(lists0, q, k, lists);
          WithoutAt(s, k);
          return true;
        }
        prev := curr;
        curr := next[curr];
        k := k + 1;
      }
      Look(q, k);
      return false;
    }

    /** proc_queue_find_last_prefix: the last process of the longest prefix on which pred holds. */
    method FindLastPrefix(q: Qid, pred: int -> bool) returns (last: int, ghost n: nat)
      requires Valid()
      ensures n <= |List(lists, q)| && last == At(List(lists, q), n - 1) && (last == 0 <==> n == 0)
      ensures forall k :: 0 <= k < n ==> pred(List(lists, q)[k])
      ensures n < |List(lists, q)| ==> !pred(List(lists, q)[n])
    {
      hide Rep, Separate, Holds, Mine;
      Look(q, 0);
      last, n := 0, 0;
      var p := QueueOf(queues, q).head;
      while p != 0
        invariant n <= |List(lists, q)| && p == At(List(lists, q), n) && last == At(List(lists, q), n - 1)
        invariant forall k :: 0 <= k < n ==> pred(List(lists, q)[k])
        decreases |List(lists, q)| - n
      {
        Look(q, n);
        if !pred(p) { break; }
        last, p, n := p, next[p], n + 1;
      }
      Look(q, n - 1);
      Look(q, n);
    }

    /** proc_queue_splice_prefix_tail for a prefix that ends in `last`. */
    method SplicePrefixTail(dst: Qid, src: Qid, last: int, ghost n: nat)
      requires Valid() && dst != src && dst !in draining && src !in draining
      requires 0 < n <= |List(lists, src)| && last == List(lists, src)[n - 1]
      modifies `next, `queues, `lists
      ensures Valid() && next.Keys == old(next.Keys)
      ensures var s, t := List(old(lists), src), List(old(lists), dst);
        lists == old(lists)[src := s[n..]][dst := t + s[..n]]
    {
      hide Rep, Separate, Holds, Free, Mine;
      ghost var s, t := List(lists, src), List(lists, dst);
      var first := QueueOf(queues, src).head;
      CutPrefix(src, last, n);
      Look(dst, |t| - 1);
      ghost var next0, queues0, lists0 := next, queues, lists;
      var h := QueueOf(queues, dst);
      assert t + s[..n] == if t == [] then s[..n] else t + s[..n];
      if h.head == 0 {
        h := Queue(first, last);
      } else {
        HoldsJoin(next, h, t, Queue(first, last), s[..n]);
        HoldsAt(next, h, t, false, |t| - 1);
        next := next[h.tail := first];
        h := h.(tail := last);
      }
      queues := queues[dst := h];
      lists := lists[dst := t + s[..n]];
      JoinDistinct(t, s[..n]);
      Replace(next0, next, queues0, lists0, dst, h, t + s[..n], draining);
    }

    /** The first half of the splice: the prefix leaves src and stays linked up. */
    method CutPrefix(src: Qid, last: int, ghost n: nat)
      requires Valid() && src !in draining && 0 < n <= |List(lists, src)| && last == List(lists, src)[n - 1]
      modifies `next, `queues, `lists
      ensures Valid() && next.Keys == old(next.Keys) && lists == old(lists)[src := List(old(lists), src)[n..]]
      ensures Holds(next, Queue(old(QueueOf(queues, src)).head, last), List(old(lists), src)[..n], false)
      ensures Distinct(List(old(lists), src)[..n]) && forall p :: p in List(old(lists), src)[..n] ==> Free(lists, p)
    {
      hide Rep, Separate, Holds, Free, Mine;
      Look(src, n - 1);
      ghost var next0, queues0, lists0, s := next, queues, lists, List(lists, src);
      var h := QueueOf(queues, src);
      HoldsCut(next, h, s, n);
      h := h.(head := next[last]);
      if h.tail == last { h := h.(tail := 0); }
      next := next[last := 0];
      queues := queues[src := h];
      lists := lists[src := s[n..]];
      Replace(next0, next, queues0, lists0, src, h, s[n..], draining);
      forall p | p in s[..n] ensures Free(lists, p) { FreedPrefix(lists0, src, n, lists, p); }
    }

    /** A new process, in no queue. */
    method Adopt(p: int)
      requires Valid() && p !in next
      modifies this`next
      ensures Valid() && next == old(next)[p := 0] && Free(lists, p)
    {
      ghost var next0 := next;
      next := next[p := 0];
      forall q ensures Holds(next, QueueOf(queues, q), List(lists, q), q in draining) && !In(lists, q, p) {
        HoldsAt(next0, QueueOf(queues, q), List(lists, q), q in draining, 0);
        Unlinked(next0, next, QueueOf(queues, q), List(lists, q), q in draining);
      }
    }

    /** A process in no queue is released. */
    method Release(p: int)
      requires Valid() && Free(lists, p)
      modifies this`next
      ensures Valid() && next == old(next) - {p}
    {
      ghost var next0 := next;
      next := next - {p};
      forall q ensures Holds(next, QueueOf(queues, q), List(lists, q), q in draining) {
        assert !In(lists, q, p) && Holds(next0, QueueOf(queues, q), List(lists, q), q in draining);
        Unlinked(next0, next, QueueOf(queues, q), List(lists, q), q in draining);
      }
    }
  }
}
