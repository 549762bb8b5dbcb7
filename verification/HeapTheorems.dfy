/** What the allocator's invariant means for a client: the list, the payloads, the layout. */
module HeapTheorems {
  import opened HeapMemory
  import opened Hmalloc

  /** The addresses of the free blocks, in the order of the blocks. */
  ghost function FreeAddrs(bs: seq<Block>, k: nat): seq<int>
    requires k <= |bs|
    decreases |bs| - k
  {
    if k == |bs| then [] else (if bs[k].free then [bs[k].addr] else []) + FreeAddrs(bs, k + 1)
  }

  /** Following `next` from `head` visits exactly these addresses and then null. */
  ghost predicate Visits(m: Memory, head: int, s: seq<int>)
    decreases |s|
  {
    if s == [] then head == 0
    else head != 0 && head == s[0] && head in m.headers && Visits(m, m.headers[head].next, s[1..])
  }

  lemma {:induction false} ListFrom(m: Memory, bs: seq<Block>, first: int, head: int, k: nat)
    requires Laid(m, bs, first, head) && Settled(bs) && k <= |bs|
    ensures Visits(m, NextListed(bs, k), FreeAddrs(bs, k))
    decreases |bs| - k
  {
    AddressesPositive(bs, first);
    if k < |bs| {
      ListFrom(m, bs, first, head, k + 1);
      if bs[k].free {
        FirstIs(bs, k, k);
        assert Tagged(m, bs[k]) && Linked(m, bs, k);
        assert FreeAddrs(bs, k)[1..] == FreeAddrs(bs, k + 1);
      } else {
        FirstIs(bs, k, FirstListed(bs, k + 1));
        assert FreeAddrs(bs, k) == FreeAddrs(bs, k + 1);
      }
    } else {
      FirstIs(bs, k, k);
    }
  }

  lemma {:induction false} FreeAddrsOrdered(bs: seq<Block>, first: int, k: nat)
    requires Tiled(bs, first) && k <= |bs|
    ensures forall i :: 0 <= i < |FreeAddrs(bs, k)| && k < |bs| ==> FreeAddrs(bs, k)[i] >= bs[k].addr
    ensures forall i, j :: 0 <= i < j < |FreeAddrs(bs, k)| ==> FreeAddrs(bs, k)[i] < FreeAddrs(bs, k)[j]
    ensures forall a :: a in FreeAddrs(bs, k) <==> exists i :: k <= i < |bs| && bs[i].free && bs[i].addr == a
    decreases |bs| - k
  {
    if k < |bs| {
      FreeAddrsOrdered(bs, first, k + 1);
      if k + 1 < |bs| { SameAddr(bs, first, k, k + 1); }
    }
  }

  /** The free list is exactly the free blocks, in strictly increasing address order. */
  lemma FreeListExact(m: Memory, bs: seq<Block>, first: int, head: int)
    requires Laid(m, bs, first, head) && Settled(bs)
    ensures Visits(m, head, FreeAddrs(bs, 0))
    ensures forall i, j :: 0 <= i < j < |FreeAddrs(bs, 0)| ==> FreeAddrs(bs, 0)[i] < FreeAddrs(bs, 0)[j]
    ensures forall a :: a in FreeAddrs(bs, 0) <==> exists i :: 0 <= i < |bs| && bs[i].free && bs[i].addr == a
  {
    ListFrom(m, bs, first, head, 0);
    FreeAddrsOrdered(bs, first, 0);
  }

  /** Payloads of different occupied blocks have no address in common. */
  lemma PayloadsDisjoint(bs: seq<Block>, first: int, p: (int, nat), q: (int, nat))
    requires Tiled(bs, first) && p in Live(bs) && q in Live(bs) && p != q
    ensures Apart(p.0 + HEADER, p.1, q.0 + HEADER, q.1)
  {
    var i := LiveIndex(bs, p);
    var j := LiveIndex(bs, q);
    if i < j { TiledOrder(bs, first, i, j); }
    if j < i { TiledOrder(bs, first, j, i); }
  }

  /** No header and no footer of any block reaches into the payload of an occupied block. */
  lemma PayloadsClear(bs: seq<Block>, first: int, p: (int, nat), k: nat)
    requires Tiled(bs, first) && p in Live(bs) && k < |bs|
    ensures Apart(p.0 + HEADER, p.1, bs[k].addr, HEADER)
    ensures Apart(p.0 + HEADER, p.1, bs[k].FooterAddr(), FOOTER)
  {
    var i := LiveIndex(bs, p);
    if i < k { TiledOrder(bs, first, i, k); }
    if k < i { TiledOrder(bs, first, k, i); }
  }

  lemma SameStart(bs: seq<Block>, bs': seq<Block>, first: int, k: nat)
    requires Tiled(bs, first) && Tiled(bs', first) && k < |bs| && k < |bs'| && bs[..k] == bs'[..k]
    ensures bs[k].addr == bs'[k].addr
  {
    if k > 0 {
      assert bs[k - 1] == bs[..k][k - 1] == bs'[..k][k - 1] == bs'[k - 1];
      assert bs[k - 1].End() == bs[k - 1 + 1].addr && bs'[k - 1].End() == bs'[k - 1 + 1].addr;
    }
  }

  /** With equal starts, an occupied block is the same block in both layouts. */
  lemma SameLive(bs: seq<Block>, bs': seq<Block>, first: int, k: nat)
    requires Tiled(bs, first) && Tiled(bs', first) && Settled(bs) && Settled(bs') && Live(bs) == Live(bs')
    requires k < |bs| && k < |bs'| && bs[k].addr == bs'[k].addr && !bs[k].free
    ensures bs[k] == bs'[k]
  {
    LiveAt(bs, k);
    var j := LiveIndex(bs', (bs[k].addr, bs[k].size));
    SameAddr(bs', first, j, k);
  }

  /** With equal starts, a free block cannot end earlier than its counterpart. */
  lemma FreeReaches(bs: seq<Block>, bs': seq<Block>, first: int, k: nat)
    requires Tiled(bs, first) && Tiled(bs', first) && Settled(bs) && Settled(bs') && Live(bs) == Live(bs')
    requires bs[|bs| - 1].End() == bs'[|bs'| - 1].End()
    requires k < |bs| && k < |bs'| && bs[k].addr == bs'[k].addr && bs[k].free && bs'[k].free
    ensures bs[k].size >= bs'[k].size
  {
    TiledBounds(bs', first, k);
    if bs[k].size < bs'[k].size && k < |bs| - 1 {
      assert bs[k].End() == bs[k + 1].addr && !bs[k + 1].free;
      LiveAt(bs, k + 1);
      var j := LiveIndex(bs', (bs[k + 1].addr, bs[k + 1].size));
      if j < k { TiledOrder(bs', first, j, k); }
      if k < j { TiledOrder(bs', first, k, j); }
    }
  }

  lemma {:induction false} SamePrefix(bs: seq<Block>, bs': seq<Block>, first: int, k: nat)
    requires Tiled(bs, first) && Tiled(bs', first) && Settled(bs) && Settled(bs') && Live(bs) == Live(bs')
    requires bs[|bs| - 1].End() == bs'[|bs'| - 1].End()
    requires k <= |bs| && k <= |bs'|
    ensures bs[..k] == bs'[..k]
  {
    if k > 0 {
      SamePrefix(bs, bs', first, k - 1);
      SameStart(bs, bs', first, k - 1);
      if !bs[k - 1].free {
        SameLive(bs, bs', first, k - 1);
      } else if !bs'[k - 1].free {
        SameLive(bs', bs, first, k - 1);
      } else {
        FreeReaches(bs, bs', first, k - 1);
        FreeReaches(bs', bs, first, k - 1);
      }
      assert bs[..k] == bs[..k - 1] + [bs[k - 1]] && bs'[..k] == bs'[..k - 1] + [bs'[k - 1]];
    }
  }

  /** The occupied blocks and the ends of the heap determine the whole layout: free blocks are
      exactly the gaps between occupied ones, so coalescing never leaves a gap in two pieces. */
  lemma LayoutDetermined(bs: seq<Block>, bs': seq<Block>, first: int)
    requires Tiled(bs, first) && Tiled(bs', first) && Settled(bs) && Settled(bs') && Live(bs) == Live(bs')
    requires bs[|bs| - 1].End() == bs'[|bs'| - 1].End()
    ensures bs == bs'
  {
    var n := if |bs| <= |bs'| then |bs| else |bs'|;
    SamePrefix(bs, bs', first, n);
    assert bs[n - 1] == bs[..n][n - 1] == bs'[..n][n - 1] == bs'[n - 1];
    if n < |bs| { TiledOrder(bs, first, n - 1, |bs| - 1); }
    if n < |bs'| { TiledOrder(bs', first, n - 1, |bs'| - 1); }
    assert bs[..n] == bs && bs'[..n] == bs';
  }

  datatype Op = Alloc(size: Size) | Release(ptr: int)

  ghost predicate Tracks(live: set<(int, nat)>, owned: set<int>) {
    owned == set p | p in live :: p.0 + HEADER
  }

  lemma TracksOwned(bs: seq<Block>, owned: set<int>, ptr: int)
    requires Tracks(Live(bs), owned) && ptr in owned
    ensures exists i :: 0 <= i < |bs| && bs[i].Payload() == ptr
  {
    var p :| p in Live(bs) && p.0 + HEADER == ptr;
    var i := LiveIndex(bs, p);
  }

  lemma TracksNobody(live: set<(int, nat)>, owned: set<int>, ptr: int)
    requires Tracks(live, owned) && ptr !in owned
    ensures LiveWithout(live, ptr) == live
  {
    assert forall p :: p in live && p.0 + HEADER == ptr ==> p.0 + HEADER in owned;
  }

  lemma TracksSteps(live: set<(int, nat)>, owned: set<int>, ptr: int, usable: nat)
    requires Tracks(live, owned)
    ensures Tracks(live + {(ptr - HEADER, usable)}, owned + {ptr})
    ensures Tracks(LiveWithout(live, ptr), owned - {ptr})
  {
    var live' := live + {(ptr - HEADER, usable)};
    assert forall p :: p in live' ==> p in live || p.0 + HEADER == ptr;
    assert (ptr - HEADER, usable) in live';
  }

  function HeldThen(owned: set<int>, op: Op, r: int): set<int> {
    match op
    case Alloc(_) => if r == 0 then owned else owned + {r}
    case Release(ptr) => owned - {ptr}
  }

  /** What a client holds after these calls, given what the allocations returned. */
  function Held(owned: set<int>, ops: seq<Op>, results: seq<int>): set<int>
    requires |ops| == |results|
    decreases |ops|
  {
    if ops == [] then owned else
      var n := |ops| - 1;
      HeldThen(Held(owned, ops[..n], results[..n]), ops[n], results[n])
  }

  /** The k-th call did not return a pointer that the client held already. */
  ghost predicate NewAt(owned: set<int>, ops: seq<Op>, results: seq<int>, k: nat)
    requires k < |ops| == |results|
  {
    ops[k].Alloc? && results[k] != 0 ==> results[k] !in Held(owned, ops[..k], results[..k])
  }

  /** The blocks fill the heap from `first` to its end, and no two free ones touch. */
  ghost predicate Framed(s: Stage, first: int) {
    Tiled(s.blocks, first) && Settled(s.blocks) && s.end == s.blocks[|s.blocks| - 1].End()
  }

  ghost predicate Allocated(s: Stage, size: Size, grant: PageSource, r: int, usable: nat, s': Stage) {
    && Served(s, size, grant, r, usable, s')
    && Live(s'.blocks) == Live(s.blocks) + if r == 0 then {} else {(r - HEADER, usable)}
  }

  /** What one call answers and what it leaves of the heap. */
  ghost predicate Answers(s: Stage, op: Op, grant: PageSource, r: int, s': Stage) {
    match op
    case Alloc(size) => exists usable :: Allocated(s, size, grant, r, usable, s')
    case Release(ptr) =>
      s'.end == s.end && s'.growSize == s.growSize && Live(s'.blocks) == LiveWithout(Live(s.blocks), ptr) && r == 0
  }

  /** An allocation has one possible answer, and every call leaves one possible heap. */
  lemma AnswersOnce(s: Stage, first: int, op: Op, grant: PageSource, r: int, s': Stage, r': int, s'': Stage)
    requires Framed(s, first) && Framed(s', first) && Framed(s'', first)
    requires Answers(s, op, grant, r, s') && Answers(s, op, grant, r', s'')
    ensures r == r' && s' == s''
  {
    if op.Alloc? {
      var usable :| Allocated(s, op.size, grant, r, usable, s');
      var usable' :| Allocated(s, op.size, grant, r', usable', s'');
      ServedOnce(s, op.size, grant, r, usable, s', r', usable', s'');
    }
    LayoutDetermined(s'.blocks, s''.blocks, first);
  }

  lemma ServedOnce(s: Stage, size: Size, grant: PageSource, r: int, usable: nat, s': Stage,
                   r': int, usable': nat, s'': Stage)
    requires Served(s, size, grant, r, usable, s') && Served(s, size, grant, r', usable', s'')
    ensures r == r' && s'.end == s''.end && s'.growSize == s''.growSize && (r != 0 ==> usable == usable')
  {
    if SizeFits(size) && BytesToPages(size) <= s.growSize && HasFit(s.blocks, size) {
      var k: nat :|
        FirstFit(s.blocks, size, k) && r == s.blocks[k].Payload() && usable == Taken(s.blocks[k].size, size);
      var k': nat :|
        FirstFit(s.blocks, size, k') && r' == s.blocks[k'].Payload() && usable' == Taken(s.blocks[k'].size, size);
      assert k == k';
    }
  }

  /** The heap before the k-th call, as `trail` has it: its blocks fill it, and the occupied ones are
      those of the pointers held then. */
  ghost predicate StageAt(first: int, owned: set<int>, ops: seq<Op>, results: seq<int>, trail: seq<Stage>, k: nat)
    requires k <= |ops| == |results| && k < |trail|
  {
    Framed(trail[k], first) && Tracks(Live(trail[k].blocks), Held(owned, ops[..k], results[..k]))
  }

  ghost predicate AnsweredAt(ops: seq<Op>, grants: seq<PageSource>, results: seq<int>, trail: seq<Stage>, k: nat)
    requires k < |ops| == |grants| == |results| && k + 1 < |trail|
  {
    Answers(trail[k], ops[k], grants[k], results[k], trail[k + 1])
  }

  /** The heap only ever grows, and its growth size by at most one page a call. */
  ghost predicate Grows(trail: seq<Stage>) {
    forall k :: 0 < k < |trail| ==> Grown(trail[k - 1], trail[k])
  }

  ghost predicate Grown(s: Stage, s': Stage) {
    s.end <= s'.end && s.growSize <= s'.growSize <= s.growSize + 1
  }

  /** `ptr` has a live block of at least `size` bytes. */
  ghost predicate HasRoom(live: set<(int, nat)>, ptr: int, size: nat) {
    exists p :: p in live && p.0 + HEADER == ptr && p.1 >= size
  }

  /** What the k-th call allocated, and no later call released, has the size that was asked for. */
  ghost predicate RoomAt(live: set<(int, nat)>, ops: seq<Op>, results: seq<int>, k: nat)
    requires k < |ops| == |results|
  {
    ops[k].Alloc? && results[k] != 0 && Release(results[k]) !in ops[k..] ==> HasRoom(live, results[k], ops[k].size)
  }

  /** The blocks that these calls do not release. */
  ghost function Untouched(live: set<(int, nat)>, ops: seq<Op>): set<(int, nat)> {
    set p | p in live && Release(p.0 + HEADER) !in ops
  }

  lemma SameAddress(bs: seq<Block>, first: int, p: (int, nat), q: (int, nat))
    requires Tiled(bs, first) && p in Live(bs) && q in Live(bs) && p.0 == q.0
    ensures p == q
  {
    var i := LiveIndex(bs, p);
    var j := LiveIndex(bs, q);
    if i < j { TiledOrder(bs, first, i, j); } else if j < i { TiledOrder(bs, first, j, i); }
  }

  lemma NewPointer(bs: seq<Block>, first: int, live: set<(int, nat)>, owned: set<int>, ptr: int, usable: nat)
    requires Tiled(bs, first) && Live(bs) == live + {(ptr - HEADER, usable)} && (ptr - HEADER, usable) !in live
    requires Tracks(live, owned)
    ensures ptr !in owned
  {
    if ptr in owned {
      var p :| p in live && p.0 + HEADER == ptr;
      SameAddress(bs, first, p, (ptr - HEADER, usable));
    }
  }

  lemma UntouchedStep(m0: Memory, m: Memory, m': Memory, live0: set<(int, nat)>,
                      live: set<(int, nat)>, live': set<(int, nat)>, ops: seq<Op>, op: Op)
    requires Untouched(live0, ops) <= live && LiveKept(m0, m, Untouched(live0, ops))
    requires Untouched(live, [op]) <= live' && LiveKept(m, m', Untouched(live, [op]))
    ensures Untouched(live0, ops + [op]) <= live' && LiveKept(m0, m', Untouched(live0, ops + [op]))
  {
    hide SameBytes;
    forall p | p in Untouched(live0, ops + [op])
      ensures p in live' && SameBytes(m0, m', p.0 + HEADER, p.0 + HEADER + p.1)
    {
      var r := Release(p.0 + HEADER);
      assert r in ops ==> r in ops + [op];
      assert op in ops + [op];
      assert p in Untouched(live0, ops) && p in Untouched(live, [op]);
      SameBytesTrans(m0, m, m', p.0 + HEADER, p.0 + HEADER + p.1);
    }
  }

  lemma SameBytesTrans(m0: Memory, m: Memory, m': Memory, lo: int, hi: int)
    requires SameBytes(m0, m, lo, hi) && SameBytes(m, m', lo, hi)
    ensures SameBytes(m0, m', lo, hi)
  {
  }

  /** Any sequence of allocations and of releases, with releases of pointers that are not held
      left out, and any page source at each call: the invariant holds throughout, the occupied blocks
      are those handed out and not given back, every pointer is new when it is handed out, every
      allocation is answered as `Served` says, blocks that are not released keep their bytes, and
      those allocated have the size asked for.  `trail` holds the heap before each call and after the
      last one. */
  method Run(heap: Heap, ops: seq<Op>, grants: seq<PageSource>, owned: set<int>)
    returns (owned': set<int>, results: seq<int>, ghost trail: seq<Stage>)
    requires heap.Valid() && heap.initialized && Tracks(Live(heap.blocks), owned) && |grants| == |ops|
    modifies heap
    ensures heap.Valid() && heap.initialized && Tracks(Live(heap.blocks), owned')
    ensures |results| == |ops| && owned' == Held(owned, ops, results)
    ensures forall k :: 0 <= k < |ops| ==> NewAt(owned, ops, results, k)
    ensures |trail| == |ops| + 1 && trail[0] == old(heap.Now()) && trail[|ops|] == heap.Now()
    ensures forall k :: 0 <= k <= |ops| ==> StageAt(heap.first, owned, ops, results, trail, k)
    ensures Grows(trail) && forall k :: 0 <= k < |ops| ==> AnsweredAt(ops, grants, results, trail, k)
    ensures forall k :: 0 <= k < |ops| ==> RoomAt(Live(heap.blocks), ops, results, k)
    ensures Untouched(Live(old(heap.blocks)), ops) <= Live(heap.blocks)
    ensures LiveKept(old(heap.mem), heap.mem, Untouched(Live(old(heap.blocks)), ops))
  {
    hide Tracks, Live, LiveKept, NewAt, Untouched, Settled, Laid, AnsweredAt, Grows, RoomAt, HasRoom, StageAt;
    owned', results, trail := owned, [], [heap.Now()];
    ghost var mem0, live0 := heap.mem, Live(heap.blocks);
    UntouchedNone(mem0, live0);
    assert Grows(trail) by { GrowsOne(trail[0]); }
    assert ops[..0] == [];
    NowStage(heap, owned', owned, [], [], trail);
    for k := 0 to |ops|
      invariant heap.Valid() && heap.initialized && Tracks(Live(heap.blocks), owned')
      invariant |results| == k && owned' == Held(owned, ops[..k], results)
      invariant forall j :: 0 <= j < k ==> NewAt(owned, ops[..k], results, j)
      invariant |trail| == k + 1 && trail[0] == old(heap.Now()) && trail[k] == heap.Now()
      invariant forall j :: 0 <= j <= k ==> StageAt(heap.first, owned, ops[..k], results, trail, j)
      invariant Grows(trail) && forall j :: 0 <= j < k ==> AnsweredAt(ops[..k], grants[..k], results, trail, j)
      invariant forall j :: 0 <= j < k ==> RoomAt(Live(heap.blocks), ops[..k], results, j)
      invariant Untouched(live0, ops[..k]) <= Live(heap.blocks) && LiveKept(mem0, heap.mem, Untouched(live0, ops[..k]))
    {
      ghost var mem, live, before, results0 := heap.mem, Live(heap.blocks), owned', results;
      var r;
      owned', r := Step(heap, ops[k], grants[k], owned');
      UntouchedStep(mem0, mem, heap.mem, live0, live, Live(heap.blocks), ops[..k], ops[k]);
      results := results + [r];
      assert ops[..k + 1] == ops[..k] + [ops[k]];
      HeldStep(owned, ops[..k], results0, ops[k], r);
      RoomStep(live, Live(heap.blocks), ops[..k], results0, ops[k], r);
      ghost var trail0 := trail;
      trail := trail + [heap.Now()];
      assert grants[..k + 1] == grants[..k] + [grants[k]];
      AnsweredStep(ops[..k], grants[..k], results0, trail0, ops[k], grants[k], r, trail[k + 1]);
      NowStage(heap, owned', owned, ops[..k + 1], results, trail);
      StageStep(heap.first, owned, ops[..k], results0, trail0, ops[k], r, trail[k + 1]);
    }
    assert ops[..|ops|] == ops && grants[..|ops|] == grants;
  }

  lemma GrowsOne(at: Stage)
    ensures Grows([at])
  {
  }

  lemma UntouchedNone(m: Memory, live: set<(int, nat)>)
    ensures Untouched(live, []) <= live && LiveKept(m, m, Untouched(live, []))
  {
  }

  /** One more call. */
  lemma HeldStep(owned: set<int>, ops: seq<Op>, results: seq<int>, op: Op, r: int)
    requires |ops| == |results|
    ensures Held(owned, ops + [op], results + [r]) == HeldThen(Held(owned, ops, results), op, r)
    ensures forall k :: 0 <= k < |ops| && NewAt(owned, ops, results, k) ==> NewAt(owned, ops + [op], results + [r], k)
    ensures op.Release? || r == 0 || r !in Held(owned, ops, results) ==> NewAt(owned, ops + [op], results + [r], |ops|)
  {
    assert (ops + [op])[..|ops|] == ops && (results + [r])[..|ops|] == results;
    forall k | 0 <= k < |ops| && NewAt(owned, ops, results, k) ensures NewAt(owned, ops + [op], results + [r], k) {
      assert (ops + [op])[..k] == ops[..k] && (results + [r])[..k] == results[..k];
    }
  }

  lemma AnsweredStep(ops: seq<Op>, grants: seq<PageSource>, results: seq<int>,
                     trail: seq<Stage>, op: Op, grant: PageSource, r: int, at: Stage)
    requires |ops| == |grants| == |results| == |trail| - 1
    requires forall k :: 0 <= k < |ops| ==> AnsweredAt(ops, grants, results, trail, k)
    requires Answers(trail[|ops|], op, grant, r, at)
    requires Grows(trail) && Grown(trail[|ops|], at)
    ensures forall k :: 0 <= k <= |ops| ==> AnsweredAt(ops + [op], grants + [grant], results + [r], trail + [at], k)
    ensures Grows(trail + [at])
  {
    hide Answers, Grown;
    forall k | 0 <= k <= |ops| ensures AnsweredAt(ops + [op], grants + [grant], results + [r], trail + [at], k) {
      assert k < |ops| ==> AnsweredAt(ops, grants, results, trail, k);
    }
  }

  lemma StageStep(first: int, owned: set<int>, ops: seq<Op>, results: seq<int>, trail: seq<Stage>,
                  op: Op, r: int, at: Stage)
    requires |ops| == |results| == |trail| - 1
    requires forall k :: 0 <= k <= |ops| ==> StageAt(first, owned, ops, results, trail, k)
    requires StageAt(first, owned, ops + [op], results + [r], trail + [at], |ops| + 1)
    ensures forall k :: 0 <= k <= |ops| + 1 ==> StageAt(first, owned, ops + [op], results + [r], trail + [at], k)
  {
    hide Framed, Tracks, Held;
    forall k | 0 <= k <= |ops| ensures StageAt(first, owned, ops + [op], results + [r], trail + [at], k) {
      assert StageAt(first, owned, ops, results, trail, k);
      assert (ops + [op])[..k] == ops[..k] && (results + [r])[..k] == results[..k];
    }
  }

  lemma NowStage(heap: Heap, held: set<int>, owned: set<int>, ops: seq<Op>, results: seq<int>, trail: seq<Stage>)
    requires heap.Valid() && heap.initialized && Tracks(Live(heap.blocks), held)
    requires |ops| == |results| == |trail| - 1 && held == Held(owned, ops, results) && trail[|ops|] == heap.Now()
    ensures StageAt(heap.first, owned, ops, results, trail, |ops|)
  {
    assert ops[..|ops|] == ops && results[..|ops|] == results;
  }

  lemma RoomStep(live: set<(int, nat)>, live': set<(int, nat)>, ops: seq<Op>, results: seq<int>, op: Op, r: int)
    requires |ops| == |results| && forall k :: 0 <= k < |ops| ==> RoomAt(live, ops, results, k)
    requires Untouched(live, [op]) <= live' && (op.Alloc? && r != 0 ==> HasRoom(live', r, op.size))
    ensures forall k :: 0 <= k <= |ops| ==> RoomAt(live', ops + [op], results + [r], k)
  {
    var ops', results' := ops + [op], results + [r];
    forall k | 0 <= k < |ops| ensures RoomAt(live', ops', results', k) {
      assert RoomAt(live, ops, results, k) && ops'[k..] == ops[k..] + [op];
      if ops[k].Alloc? && results[k] != 0 && Release(results[k]) !in ops'[k..] {
        RoomKept(live, live', op, results[k], ops[k].size);
      }
    }
    assert ops'[|ops|] == op && results'[|ops|] == r;
  }

  lemma RoomKept(live: set<(int, nat)>, live': set<(int, nat)>, op: Op, ptr: int, size: nat)
    requires HasRoom(live, ptr, size) && Untouched(live, [op]) <= live' && op != Release(ptr)
    ensures HasRoom(live', ptr, size)
  {
    var p :| p in live && p.0 + HEADER == ptr && p.1 >= size;
    assert p in Untouched(live, [op]);
  }

  lemma UntouchedAlloc(live: set<(int, nat)>, size: Size)
    ensures Untouched(live, [Alloc(size)]) == live
  {
  }

  lemma UntouchedRelease(live: set<(int, nat)>, ptr: int)
    ensures Untouched(live, [Release(ptr)]) == LiveWithout(live, ptr) <= live
  {
  }

  lemma TiledOf(heap: Heap)
    requires heap.Valid() && heap.initialized
    ensures Tiled(heap.blocks, heap.first)
  {
  }

  method Step(heap: Heap, op: Op, grant: PageSource, owned: set<int>) returns (owned': set<int>, r: int)
    requires heap.Valid() && heap.initialized && Tracks(Live(heap.blocks), owned)
    modifies heap
    ensures heap.Valid() && heap.initialized && Tracks(Live(heap.blocks), owned')
    ensures owned' == HeldThen(owned, op, r)
    ensures op.Alloc? && r != 0 ==> r !in owned && HasRoom(Live(heap.blocks), r, op.size)
    ensures heap.first == old(heap.first) && Answers(old(heap.Now()), op, grant, r, heap.Now())
    ensures Grown(old(heap.Now()), heap.Now())
    ensures Untouched(Live(old(heap.blocks)), [op]) <= Live(heap.blocks)
    ensures LiveKept(old(heap.mem), heap.mem, Untouched(Live(old(heap.blocks)), [op]))
  {
    hide Tracks, Live, LiveWithout, LiveKept, Settled, Laid, SameBytes, Untouched;
    owned', r := owned, 0;
    ghost var live, mem := Live(heap.blocks), heap.mem;
    match op
    case Alloc(size) =>
      ghost var usable;
      UntouchedAlloc(live, size);
      r, usable := heap.Malloc(size, grant);
      assert Allocated(old(heap.Now()), size, grant, r, usable, heap.Now());
      TracksSteps(live, owned, r, usable);
      if r != 0 {
        owned' := owned + {r};
        assert (r - HEADER, usable) in Live(heap.blocks);
        NewPointer(heap.blocks, heap.first, live, owned, r, usable) by { TiledOf(heap); }
      }
    case Release(ptr) =>
      UntouchedRelease(live, ptr);
      if ptr in owned {
        TracksOwned(heap.blocks, owned, ptr);
        TracksSteps(live, owned, ptr, 0);
        var h, back := heap.Tags(ptr);
        heap.Free(ptr, h, back);
        owned' := owned - {ptr};
      } else {
        TracksNobody(live, owned, ptr);
        LiveKeptSelf(mem, Untouched(live, [op]));
      }
  }
}
