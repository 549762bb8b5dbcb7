/** realloc on top of the allocator. */
module Realloc {
  import opened HeapMemory
  import opened Hmalloc
  import opened HeapTheorems

  /** `n` bytes from `src` on in memory m are the bytes from `dst` on in memory m'. */
  ghost predicate Copied(m: Memory, src: int, m': Memory, dst: int, n: nat) {
    forall x :: dst <= x < dst + n ==> ByteAt(m', x) == ByteAt(m, x - dst + src)
  }

  /** memcpy between the payloads of two different occupied blocks. */
  method CopyPayload(heap: Heap, src: int, dst: int, n: nat, ghost p: (int, nat), ghost q: (int, nat))
    requires heap.Valid() && heap.initialized && p in Live(heap.blocks) && q in Live(heap.blocks) && p != q
    requires src == p.0 + HEADER && n <= p.1 && dst == q.0 + HEADER && n <= q.1
    modifies heap`mem
    ensures heap.Valid()
    ensures Copied(old(heap.mem), src, heap.mem, dst, n)
    ensures forall x :: !(dst <= x < dst + n) ==> ByteAt(heap.mem, x) == ByteAt(old(heap.mem), x)
  {
    PayloadsDisjoint(heap.blocks, heap.first, p, q);
    var k := 0;
    while k < n
      invariant 0 <= k <= n && heap.Valid()
      invariant Copied(old(heap.mem), src, heap.mem, dst, k)
      invariant forall x :: !(dst <= x < dst + k) ==> ByteAt(heap.mem, x) == ByteAt(old(heap.mem), x)
    {
      heap.Store(q, dst + k, ByteAt(heap.mem, src + k));
      k := k + 1;
    }
  }

  lemma OwnedBlock(bs: seq<Block>, ptr: int, n: nat)
    requires Owned(bs, ptr, n)
    ensures exists i :: 0 <= i < |bs| && bs[i].Payload() == ptr
  {
    var i := LiveIndex(bs, (ptr - HEADER, n));
  }

  lemma OwnedOnce(bs: seq<Block>, first: int, ptr: int, n: nat, n': nat)
    requires Tiled(bs, first) && Owned(bs, ptr, n) && Owned(bs, ptr, n')
    ensures n == n'
  {
    var i := LiveIndex(bs, (ptr - HEADER, n));
    var j := LiveIndex(bs, (ptr - HEADER, n'));
    SameAddr(bs, first, i, j);
  }

  /** Copying into the new block leaves the payload of every other block alone. */
  lemma CopyKeeps(m: Memory, m': Memory, bs: seq<Block>, first: int, live: set<(int, nat)>, q: (int, nat), n: nat)
    requires Tiled(bs, first) && live <= Live(bs) && q in Live(bs) && q !in live && n <= q.1
    requires forall x :: !(q.0 + HEADER <= x < q.0 + HEADER + n) ==> ByteAt(m', x) == ByteAt(m, x)
    ensures LiveKept(m, m', live)
  {
    forall p | p in live
      ensures SameBytes(m, m', p.0 + HEADER, p.0 + HEADER + p.1)
    {
      PayloadsDisjoint(bs, first, p, q);
    }
  }

  /** Allocate (m to m1), copy (m1 to m2), free (m2 to m3). */
  lemma CopyArrives(m: Memory, m1: Memory, m2: Memory, m3: Memory, ptr: int, r: int, n: nat)
    requires SameBytes(m, m1, ptr, ptr + n) && Copied(m1, ptr, m2, r, n) && SameBytes(m2, m3, r, r + n)
    ensures Copied(m, ptr, m3, r, n)
  {
    forall x | r <= x < r + n
      ensures ByteAt(m3, x) == ByteAt(m, x - r + ptr)
    {
      assert ByteAt(m2, x) == ByteAt(m1, x - r + ptr);
    }
  }

  lemma LiveSets(live: set<(int, nat)>, ptr: int, q: (int, nat))
    requires q.0 + HEADER != ptr
    ensures LiveWithout(live, ptr) <= live
    ensures LiveWithout(live + {q}, ptr) == LiveWithout(live, ptr) + {q}
  {
  }

  /** What a grown block must satisfy: it replaces the old one and starts with its bytes. */
  ghost predicate Moved(m: Memory, live: set<(int, nat)>, m': Memory,
                        live': set<(int, nat)>, ptr: int, n: nat, r: int, size: nat) {
    Copied(m, ptr, m', r, n) && exists usable: nat :: usable >= size && Replaces(live, live', ptr, r, usable)
  }

  ghost predicate Replaces(live: set<(int, nat)>, live': set<(int, nat)>, ptr: int, r: int, usable: nat) {
    live' == LiveWithout(live, ptr) + {(r - HEADER, usable)}
  }

  /** `n` is the usable size of the block at `ptr`, and 0 for the null pointer. */
  method Realloc(heap: Heap, ptr: int, size: Size, grant: PageSource, ghost n: nat) returns (r: int)
    requires heap.Valid() && heap.initialized
    requires if ptr == 0 then n == 0 else Owned(heap.blocks, ptr, n)
    modifies heap
    ensures heap.Valid() && heap.initialized
    ensures LiveKept(old(heap.mem), heap.mem, LiveWithout(Live(old(heap.blocks)), ptr))
    ensures ptr != 0 && size == 0 ==> r == 0 && Live(heap.blocks) == LiveWithout(Live(old(heap.blocks)), ptr)
    ensures ptr != 0 && 0 < size <= n ==> r == ptr && heap.mem == old(heap.mem) && heap.blocks == old(heap.blocks)
    ensures (ptr == 0 || size > n) ==>
      exists usable: nat :: Served(old(heap.Now()), size, grant, r, usable, heap.Now())
    ensures (ptr == 0 || size > n) && r == 0 ==>
      Live(heap.blocks) == Live(old(heap.blocks)) && LiveKept(old(heap.mem), heap.mem, Live(old(heap.blocks)))
    ensures (ptr == 0 || size > n) && r != 0 ==>
      Moved(old(heap.mem), Live(old(heap.blocks)), heap.mem, Live(heap.blocks), ptr, n, r, size)
  {
    hide Settled, AllTagged, Threaded, Tiled, SameBytes, LiveKept, Live, LiveWithout;
    ghost var m0, live, usable := heap.mem, Live(heap.blocks), 0;
    LiveKeptSelf(m0, LiveWithout(live, ptr));
    LiveSets(live, ptr, (ptr, 0));
    if ptr == 0 {
      LiveWithoutNull(heap.blocks, heap.first);
      r, usable := heap.Malloc(size, grant);
      assert r != 0 ==> Replaces(live, Live(heap.blocks), ptr, r, usable);
      return;
    }
    OwnedBlock(heap.blocks, ptr, n);
    var h, back := heap.Tags(ptr);
    if size == 0 {
      heap.Free(ptr, h, back);
      return 0;
    }
    var oldSize := heap.UsableSize(ptr, h, back);
    OwnedOnce(heap.blocks, heap.first, ptr, n, oldSize);
    if oldSize >= size { return ptr; }
    r, usable := heap.Malloc(size, grant);
    ghost var s := heap.Now();
    LiveKeptLess(m0, heap.mem, live, LiveWithout(live, ptr));
    if r == 0 { return 0; }
    GrowBlock(heap, ptr, r, oldSize, m0, live, usable);
    ServedSame(old(heap.Now()), size, grant, r, usable, s, heap.Now());
    assert Replaces(live, Live(heap.blocks), ptr, r, usable);
  }

  lemma ServedSame(s0: Stage, size: Size, grant: PageSource, r: int, usable: nat, s: Stage, s': Stage)
    requires Served(s0, size, grant, r, usable, s) && s'.end == s.end && s'.growSize == s.growSize
    ensures Served(s0, size, grant, r, usable, s')
  {
  }

  lemma LiveWithoutNull(bs: seq<Block>, first: int)
    requires Tiled(bs, first)
    ensures LiveWithout(Live(bs), 0) == Live(bs)
  {
    AddressesPositive(bs, first);
    LiveWithoutNobody(bs, first, 0);
  }

  /** The second half of realloc: fill the new block and give back the old one. */
  method GrowBlock(heap: Heap, ptr: int, r: int, oldSize: nat, ghost m0: Memory,
                   ghost live: set<(int, nat)>, ghost usable: nat)
    requires heap.Valid() && heap.initialized && ptr != 0 && r != 0
    requires (ptr - HEADER, oldSize) in live && (r - HEADER, usable) !in live && oldSize <= usable
    requires Live(heap.blocks) == live + {(r - HEADER, usable)} && LiveKept(m0, heap.mem, live)
    modifies heap`mem, heap`freeRegions, heap`blocks
    ensures heap.Valid()
    ensures Live(heap.blocks) == LiveWithout(live, ptr) + {(r - HEADER, usable)}
    ensures LiveKept(m0, heap.mem, LiveWithout(live, ptr))
    ensures Copied(m0, ptr, heap.mem, r, oldSize)
  {
    hide Settled, AllTagged, Threaded, Tiled, Live, LiveWithout, Copied;
    ghost var m1, bs1, q := heap.mem, heap.blocks, (r - HEADER, usable);
    LiveSets(live, ptr, (ptr, 0));
    if r == ptr { OwnedOnce(bs1, heap.first, ptr, oldSize, usable); }
    LiveSets(live, ptr, q);
    if oldSize > 0 {
      CopyPayload(heap, ptr, r, oldSize, (ptr - HEADER, oldSize), q);
    }
    ghost var m2 := heap.mem;
    CopyKeeps(m1, m2, bs1, heap.first, live, q, oldSize);
    OwnedBlock(bs1, ptr, oldSize);
    var h, back := heap.Tags(ptr);
    heap.Free(ptr, h, back);
    LiveKeptTrans(m0, m1, m2, live);
    LiveKeptLess(m0, m2, live, LiveWithout(live, ptr));
    LiveKeptLess(m2, heap.mem, Live(heap.blocks), LiveWithout(live, ptr));
    LiveKeptTrans(m0, m2, heap.mem, LiveWithout(live, ptr));
    KeptAt(m0, m1, live, (ptr - HEADER, oldSize), oldSize);
    KeptAt(m2, heap.mem, Live(heap.blocks), q, oldSize);
    CopyNone(m1, m2, ptr, r, oldSize);
    CopyArrives(m0, m1, m2, heap.mem, ptr, r, oldSize);
  }

  lemma KeptAt(m: Memory, m': Memory, live: set<(int, nat)>, p: (int, nat), n: nat)
    requires LiveKept(m, m', live) && p in live && n <= p.1
    ensures SameBytes(m, m', p.0 + HEADER, p.0 + HEADER + n)
  {
    assert SameBytes(m, m', p.0 + HEADER, p.0 + HEADER + p.1);
  }

  lemma CopyNone(m: Memory, m': Memory, ptr: int, r: int, n: nat)
    requires n == 0 || Copied(m, ptr, m', r, n)
    ensures Copied(m, ptr, m', r, n)
  {
  }
}
