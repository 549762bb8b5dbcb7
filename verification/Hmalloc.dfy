/** hmalloc: the boundary-tag allocator, in the kernel build where `Initialize` runs at boot. */
module Hmalloc {
  import opened HeapMemory
  import opened HeapList

  const PAGE := 4096
  const MAX_GROW := 160
  const SIZE_MAX := 0xFFFF_FFFF_FFFF_FFFF

  type Size = n: nat | n <= SIZE_MAX

  /** The answer of the page source: are `pages` pages at this address granted? */
  type PageSource = (int, nat) -> bool

  /** A size for which the page arithmetic does not wrap around. */
  predicate SizeFits(size: Size) {
    size <= SIZE_MAX - OVERHEAD - PAGE + 1
  }

  function BytesToPages(size: Size): (pages: nat)
    requires SizeFits(size)
    ensures size + OVERHEAD <= pages * PAGE < size + OVERHEAD + PAGE
  {
    (size + OVERHEAD + PAGE - 1) / PAGE
  }

  /** The pages that a request makes hmalloc ask for when no listed block is used. */
  function PagesFor(size: Size, growSize: nat): nat
    requires SizeFits(size)
  {
    if BytesToPages(size) > growSize then BytesToPages(size) else growSize
  }

  /** The pages from `end` on are granted and end inside the address space. */
  predicate Granted(grant: PageSource, end: int, pages: nat) {
    grant(end, pages) && end + pages * PAGE <= SIZE_MAX
  }

  /** The blocks of a heap, its end and its growth size. */
  datatype Stage = Stage(blocks: seq<Block>, end: int, growSize: nat)

  /** Block k is the first free block with room for `size` bytes. */
  ghost predicate FirstFit(bs: seq<Block>, size: nat, k: nat) {
    k < |bs| && bs[k].free && bs[k].size >= size && forall j :: 0 <= j < k && bs[j].free ==> bs[j].size < size
  }

  ghost predicate HasFit(bs: seq<Block>, size: nat) {
    exists k :: 0 <= k < |bs| && bs[k].free && bs[k].size >= size
  }

  /** What a block of `available` bytes keeps when `size` are asked of it: all of them, unless the rest
      has room for the tags of a block and more. */
  function Taken(available: nat, size: nat): nat {
    if available <= size + OVERHEAD then available else size
  }

  /** `ptr` is the first free block with room, and nothing else is taken from the heap or its source. */
  ghost predicate ServedByFit(s: Stage, size: nat, ptr: int, usable: nat, s': Stage) {
    && s'.end == s.end && s'.growSize == s.growSize
    && exists k: nat ::
      FirstFit(s.blocks, size, k) && ptr == s.blocks[k].Payload() && usable == Taken(s.blocks[k].size, size)
  }

  /** `ptr` starts the new pages, or the free block in front of them; nothing is taken if they are refused. */
  ghost predicate ServedByPages(s: Stage, size: Size, grant: PageSource, ptr: int, usable: nat, s': Stage) {
    && s.blocks != [] && SizeFits(size)
    && s'.growSize == (if BytesToPages(size) > s.growSize then s.growSize else s.growSize + 1)
    && if Granted(grant, s.end, PagesFor(size, s.growSize)) then
      var last := s.blocks[|s.blocks| - 1];
      && ptr == (if last.free then last.Payload() else s.end + HEADER)
      && s'.end == s.end + PagesFor(size, s.growSize) * PAGE
      && s'.end - FOOTER >= ptr && usable == Taken(s'.end - FOOTER - ptr, size)
    else
      ptr == 0 && s'.end == s.end
  }

  /** The answer to an allocation, and the size of the heap after it: a request within the growth size
      is served by the first free block with room if there is one, whatever the page source says, and
      any other request by new pages. */
  ghost predicate Served(s: Stage, size: Size, grant: PageSource, ptr: int, usable: nat, s': Stage) {
    if !SizeFits(size) then ptr == 0 && s'.end == s.end && s'.growSize == s.growSize
    else if BytesToPages(size) <= s.growSize && HasFit(s.blocks, size) then ServedByFit(s, size, ptr, usable, s')
    else ServedByPages(s, size, grant, ptr, usable, s')
  }

  function AlignUp(a: int): int {
    (a + PAGE - 1) / PAGE * PAGE
  }

  /** Between calls: the list holds exactly the free blocks, and free blocks never touch. */
  ghost predicate Settled(bs: seq<Block>) {
    && (forall i :: 0 <= i < |bs| ==> bs[i].listed == bs[i].free)
    && (forall i {:trigger bs[i].free} :: 0 <= i < |bs| - 1 ==> !(bs[i].free && bs[i + 1].free))
  }

  lemma HeadAbove(bs: seq<Block>, first: int, head: int, i: nat)
    requires Tiled(bs, first) && head == NextListed(bs, 0) && i < |bs|
    requires head == 0 || bs[i].addr < head
    ensures FirstListed(bs, 0) > i
  {
    AddressesPositive(bs, first);
    var r := FirstListed(bs, 0);
    if r < |bs| { SameAddr(bs, first, i, r); }
  }

  lemma OccupiedPayloads(m: Memory, m': Memory, bs: seq<Block>, i: nat, size: nat)
    requires i < |bs| && bs[i].free && bs[i].size >= size
    requires PayloadsKept(m, m', Occupied(bs, i, size))
    ensures PayloadsKept(m, m', bs)
  {
    var bs' := Occupied(bs, i, size);
    forall j | 0 <= j < |bs| && !bs[j].free
      ensures SameBytes(m, m', bs[j].Payload(), bs[j].FooterAddr())
    {
      assert bs[j] == bs'[if j < i || |bs'| == |bs| then j else j + 1];
    }
  }

  lemma ReflagPayloads(m: Memory, m': Memory, bs: seq<Block>, i: nat)
    requires i < |bs| && PayloadsKept(m, m', bs[i := bs[i].(free := false)])
    ensures PayloadsKept(m, m', bs)
  {
    forall j | 0 <= j < |bs| && !bs[j].free
      ensures SameBytes(m, m', bs[j].Payload(), bs[j].FooterAddr())
    {
      assert bs[i := bs[i].(free := false)][j].FooterAddr() == bs[j].FooterAddr();
    }
  }

  /** The occupied blocks, as (header address, usable size). */
  ghost function Live(bs: seq<Block>): set<(int, nat)> {
    set b | b in bs && !b.free :: (b.addr, b.size)
  }

  /** The payload bytes of all these blocks are the same in both memories. */
  ghost predicate LiveKept(m: Memory, m': Memory, live: set<(int, nat)>) {
    forall p :: p in live ==> SameBytes(m, m', p.0 + HEADER, p.0 + HEADER + p.1)
  }

  /** `ptr` points to the payload of an occupied block with n usable bytes. */
  ghost predicate Owned(bs: seq<Block>, ptr: int, n: nat) {
    (ptr - HEADER, n) in Live(bs)
  }

  lemma LiveAt(bs: seq<Block>, i: nat)
    requires i < |bs| && !bs[i].free
    ensures (bs[i].addr, bs[i].size) in Live(bs)
  {
    assert bs[i] in bs;
  }

  lemma LiveKeptFromPayloads(m: Memory, m': Memory, bs: seq<Block>)
    requires PayloadsKept(m, m', bs)
    ensures LiveKept(m, m', Live(bs))
  {
    forall p | p in Live(bs)
      ensures SameBytes(m, m', p.0 + HEADER, p.0 + HEADER + p.1)
    {
      var b :| b in bs && !b.free && p == (b.addr, b.size);
      var i :| 0 <= i < |bs| && bs[i] == b;
    }
  }

  /** A free block changing into another free block is of no concern to the occupied ones. */
  lemma LiveReplace(pre: seq<Block>, mid: seq<Block>, mid': seq<Block>, post: seq<Block>)
    requires forall b :: b in mid || b in mid' ==> b.free
    ensures Live(pre + mid + post) == Live(pre + mid' + post)
  {
    assert forall b :: b in pre + mid + post <==> b in pre || b in mid || b in post;
    assert forall b :: b in pre + mid' + post <==> b in pre || b in mid' || b in post;
  }

  lemma LiveUpdate(bs: seq<Block>, i: nat, b: Block)
    requires i < |bs| && bs[i].free && b.free
    ensures Live(bs[i := b]) == Live(bs)
  {
    LiveReplace(bs[..i], [bs[i]], [b], bs[i + 1..]);
    assert bs[..i] + [bs[i]] + bs[i + 1..] == bs;
    assert bs[..i] + [b] + bs[i + 1..] == bs[i := b];
  }

  lemma LiveMerged(bs: seq<Block>, i: nat)
    requires i + 1 < |bs| && bs[i].free && bs[i + 1].free
    ensures Live(Merged(bs, i)) == Live(bs)
  {
    LiveReplace(bs[..i], [bs[i], bs[i + 1]], [Merged(bs, i)[i]], bs[i + 2..]);
    assert bs[..i] + [bs[i], bs[i + 1]] + bs[i + 2..] == bs;
  }

  lemma LiveOccupied(bs: seq<Block>, i: nat, size: nat)
    requires i < |bs| && bs[i].free && bs[i].size >= size
    ensures Live(Occupied(bs, i, size)) == Live(bs) + {(bs[i].addr, Occupied(bs, i, size)[i].size)}
  {
    var bs' := Occupied(bs, i, size);
    var mid := if |bs'| == |bs| then [bs'[i]] else [bs'[i], bs'[i + 1]];
    assert bs == bs[..i] + [bs[i]] + bs[i + 1..];
    assert bs' == bs[..i] + mid + bs[i + 1..];
    assert forall b :: b in bs <==> b in bs[..i] || b == bs[i] || b in bs[i + 1..];
    assert forall b :: b in bs' <==> b in bs[..i] || b in mid || b in bs[i + 1..];
    LiveAt(bs', i);
    forall p | p in Live(bs') ensures p in Live(bs) + {(bs[i].addr, bs'[i].size)} {
      var b :| b in bs' && !b.free && p == (b.addr, b.size);
    }
  }

  lemma LiveIndex(bs: seq<Block>, p: (int, nat)) returns (i: nat)
    requires p in Live(bs)
    ensures i < |bs| && !bs[i].free && p == (bs[i].addr, bs[i].size)
  {
    var b :| b in bs && !b.free && p == (b.addr, b.size);
    i :| 0 <= i < |bs| && bs[i] == b;
  }

  /** The occupied blocks other than the one whose payload starts at `ptr`. */
  ghost function LiveWithout(live: set<(int, nat)>, ptr: int): set<(int, nat)> {
    set p | p in live && p.0 + HEADER != ptr
  }

  lemma LiveWithoutBlock(bs: seq<Block>, first: int, i: nat)
    requires Tiled(bs, first) && i < |bs| && !bs[i].free
    ensures LiveWithout(Live(bs), bs[i].Payload()) == Live(bs) - {(bs[i].addr, bs[i].size)}
  {
    forall p | p in Live(bs) && p.0 == bs[i].addr ensures p.1 == bs[i].size {
      var k := LiveIndex(bs, p);
      SameAddr(bs, first, k, i);
    }
  }

  /** `ptr` does not point to the payload of an occupied block. */
  lemma LiveWithoutNobody(bs: seq<Block>, first: int, ptr: int)
    requires Tiled(bs, first)
    requires forall i :: 0 <= i < |bs| && bs[i].Payload() == ptr ==> bs[i].free
    ensures LiveWithout(Live(bs), ptr) == Live(bs)
  {
    forall p | p in Live(bs) ensures p.0 + HEADER != ptr {
      var k := LiveIndex(bs, p);
      assert bs[k].Payload() == p.0 + HEADER;
    }
  }

  /** Freeing block i, before anything is merged. */
  lemma LiveFreed(bs: seq<Block>, first: int, i: nat)
    requires Tiled(bs, first) && i < |bs| && !bs[i].free
    ensures Live(bs[i := bs[i].(free := true)]) == Live(bs) - {(bs[i].addr, bs[i].size)}
  {
    var bs' := bs[i := bs[i].(free := true)];
    forall p | p in Live(bs') ensures p in Live(bs) - {(bs[i].addr, bs[i].size)} {
      var b :| b in bs' && !b.free && p == (b.addr, b.size);
      var k :| 0 <= k < |bs'| && bs'[k] == b;
      SameAddr(bs, first, k, i);
      LiveAt(bs, k);
    }
    forall p | p in Live(bs) - {(bs[i].addr, bs[i].size)} ensures p in Live(bs') {
      var b :| b in bs && !b.free && p == (b.addr, b.size);
      var k :| 0 <= k < |bs| && bs[k] == b;
      LiveAt(bs', k);
    }
  }

  /** Block i has just been freed: it is not on the list and may touch free neighbours. */
  ghost predicate SettledBut(bs: seq<Block>, i: nat) {
    && i < |bs| && bs[i].free && !bs[i].listed
    && (forall k :: 0 <= k < |bs| && k != i ==> bs[k].listed == bs[k].free)
    && (forall k {:trigger bs[k].free} :: 0 <= k < |bs| - 1 && k != i && k + 1 != i ==> !(bs[k].free && bs[k + 1].free))
  }

  lemma MergedEnds(bs: seq<Block>, i: nat)
    requires i + 1 < |bs| && bs[i].End() == bs[i + 1].addr
    ensures var bs' := Merged(bs, i); bs'[|bs'| - 1].FooterAddr() == bs[|bs| - 1].FooterAddr()
  {
  }

  lemma LiveKeptTrans(m: Memory, m1: Memory, m2: Memory, live: set<(int, nat)>)
    requires LiveKept(m, m1, live) && LiveKept(m1, m2, live)
    ensures LiveKept(m, m2, live)
  {
    forall p | p in live
      ensures SameBytes(m, m2, p.0 + HEADER, p.0 + HEADER + p.1)
    {
      assert SameBytes(m, m1, p.0 + HEADER, p.0 + HEADER + p.1);
      assert SameBytes(m1, m2, p.0 + HEADER, p.0 + HEADER + p.1);
    }
  }

  lemma LiveKeptLess(m: Memory, m': Memory, live: set<(int, nat)>, live': set<(int, nat)>)
    requires LiveKept(m, m', live) && live' <= live
    ensures LiveKept(m, m', live')
  {
  }

  lemma MergedBack(bs: seq<Block>, i: nat)
    requires SettledBut(bs, i) && i > 0 && bs[i - 1].free
    ensures var bs' := Merged(bs[i - 1 := bs[i - 1].(listed := false)], i - 1);
      SettledBut(bs', i - 1) && (i - 1 > 0 ==> !bs'[i - 2].free) && bs'[i - 1].addr == bs[i - 1].addr
  {
    var bs' := Merged(bs[i - 1 := bs[i - 1].(listed := false)], i - 1);
    assert forall x :: 0 <= x < i - 1 ==> bs'[x] == bs[x];
    assert forall x :: i - 1 < x < |bs'| ==> bs'[x] == bs[x + 1];
  }

  lemma MergedForward(bs: seq<Block>, i: nat)
    requires SettledBut(bs, i) && i + 1 < |bs| && bs[i + 1].free
    ensures var bs' := Merged(bs[i + 1 := bs[i + 1].(listed := false)], i);
      && SettledBut(bs', i) && bs'[i].addr == bs[i].addr
      && (i > 0 ==> bs'[i - 1] == bs[i - 1]) && (i + 1 < |bs'| ==> !bs'[i + 1].free)
  {
    var bs' := Merged(bs[i + 1 := bs[i + 1].(listed := false)], i);
    assert forall x :: 0 <= x < i ==> bs'[x] == bs[x];
    assert forall x :: i < x < |bs'| ==> bs'[x] == bs[x + 1];
  }

  lemma SettledMark(bs: seq<Block>, i: nat)
    requires Settled(bs) && i < |bs| && !bs[i].free
    ensures SettledBut(bs[i := bs[i].(free := true)], i) && !bs[i].listed
  {
  }

  lemma SettledInsert(bs: seq<Block>, i: nat)
    requires SettledBut(bs, i) && (i > 0 ==> !bs[i - 1].free) && (i + 1 < |bs| ==> !bs[i + 1].free)
    ensures Settled(bs[i := bs[i].(free := true, listed := true)])
    ensures bs[i := bs[i].(free := true)] == bs
  {
  }

  lemma OneBlockAt(bs: seq<Block>, first: int, i: nat)
    requires Tiled(bs, first) && i < |bs|
    ensures forall k :: 0 <= k < |bs| && bs[k].Payload() == bs[i].Payload() ==> k == i
  {
    forall k | 0 <= k < |bs| && bs[k].Payload() == bs[i].Payload() ensures k == i {
      SameAddr(bs, first, k, i);
    }
  }

  lemma KeptFreed(m: Memory, m': Memory, bs: seq<Block>, i: nat)
    requires i < |bs| && PayloadsKept(m, m', bs)
    ensures PayloadsKept(m, m', bs[i := bs[i].(free := true)])
  {
    var bs' := bs[i := bs[i].(free := true)];
    forall j | 0 <= j < |bs'| && !bs'[j].free
      ensures SameBytes(m, m', bs'[j].Payload(), bs'[j].FooterAddr())
    {
      assert bs'[j] == bs[j];
    }
  }

  lemma AlignedUp(a: int)
    requires a % PAGE == 0
    ensures AlignUp(a) == a
  {
  }

  lemma LiveKeptSelf(m: Memory, live: set<(int, nat)>)
    ensures LiveKept(m, m, live)
  {
  }

  lemma LiveAppended(bs: seq<Block>, b: Block)
    requires b.free
    ensures Live(bs + [b]) == Live(bs)
  {
    LiveReplace(bs, [], [b], []);
    assert bs + [] + [] == bs && bs + [b] + [] == bs + [b];
  }

  lemma SettledAppend(bs: seq<Block>, b: Block)
    requires Settled(bs) && b.free && !b.listed
    ensures SettledBut(bs + [b], |bs|)
  {
    var bs' := bs + [b];
    assert forall k :: 0 <= k < |bs| ==> bs'[k] == bs[k];
  }

  lemma AppendAgrees(m: Memory, m1: Memory, m2: Memory, m3: Memory, a: int, f: int, h1: Header, h3: Header)
    requires a + HEADER <= f
    requires m1 == PutHeader(m, a, h1) && m2 == PutFooter(m1, f, a) && m3 == PutHeader(m2, a, h3)
    ensures AgreeOutside(m, m3, a, f + FOOTER)
  {
    hide PutHeader, PutFooter, AgreeOutside;
    HeaderInside(m, a, h1, a, f + FOOTER);
    FooterInside(m1, f, a, a, f + FOOTER);
    HeaderInside(m2, a, h3, a, f + FOOTER);
    AgreeTrans(m, m1, m2, a, f + FOOTER);
    AgreeTrans(m, m2, m3, a, f + FOOTER);
  }

  lemma AppendCells(m1: Memory, m2: Memory, m3: Memory, a: int, f: int, h3: Header)
    requires a + HEADER <= f && m2 == PutFooter(m1, f, a) && m3 == PutHeader(m2, a, h3)
    ensures a in m3.headers && m3.headers[a] == h3 && f in m3.footers && m3.footers[f] == a
  {
  }

  lemma SettledOccupied(bs: seq<Block>, i: nat, size: nat)
    requires Settled(bs) && i < |bs| && bs[i].free && bs[i].size >= size
    ensures Settled(Occupied(bs, i, size)) && bs[i].listed
  {
    var bs' := Occupied(bs, i, size);
    if |bs'| > |bs| {
      assert forall x :: 0 <= x < i ==> bs'[x] == bs[x];
      assert forall x :: i + 1 < x < |bs'| ==> bs'[x] == bs[x - 1];
    }
  }

  lemma OccupiedEnds(bs: seq<Block>, i: nat, size: nat)
    requires i < |bs| && bs[i].size >= size
    ensures var bs' := Occupied(bs, i, size);
      && bs'[|bs'| - 1].FooterAddr() == bs[|bs| - 1].FooterAddr()
      && bs'[i].addr == bs[i].addr && size <= bs'[i].size == Taken(bs[i].size, size) <= size + OVERHEAD
  {
  }

  lemma FreeIsNotLive(bs: seq<Block>, first: int, i: nat, size: nat)
    requires Tiled(bs, first) && i < |bs| && bs[i].free
    ensures (bs[i].addr, size) !in Live(bs)
  {
    if (bs[i].addr, size) in Live(bs) {
      var k := LiveIndex(bs, (bs[i].addr, size));
      SameAddr(bs, first, k, i);
    }
  }

  lemma LiveBlocks(bs: seq<Block>)
    ensures forall p :: p in Live(bs) ==> exists i :: 0 <= i < |bs| && !bs[i].free && p == (bs[i].addr, bs[i].size)
  {
    forall p | p in Live(bs) ensures exists i :: 0 <= i < |bs| && !bs[i].free && p == (bs[i].addr, bs[i].size) {
      var i := LiveIndex(bs, p);
    }
  }

  /** A byte of payload is no part of any header or footer. */
  lemma StoreLaid(m: Memory, bs: seq<Block>, first: int, head: int, i: nat, a: int, b: Byte)
    requires Laid(m, bs, first, head) && i < |bs| && bs[i].Payload() <= a < bs[i].FooterAddr()
    ensures Laid(PutByte(m, a, b), bs, first, head)
  {
    var m' := PutByte(m, a, b);
    assert Tagged(m, bs[i]);
    assert AgreeOutside(m, m', bs[i].addr, bs[i].End());
    AgreeElsewhere(m, m', bs, first, i, i);
    assert Tagged(m', bs[i]);
    forall k | 0 <= k < |bs|
      ensures Linked(m', bs, k)
    {
      assert Linked(m, bs, k);
    }
  }

  class Heap {
    var mem: Memory
    var freeRegions: int
    var first: int
    var lastFooter: int
    var growSize: nat
    var initialized: bool
    ghost var blocks: seq<Block>

    ghost predicate Shaped()
      reads this
    {
      && Laid(mem, blocks, first, freeRegions)
      && lastFooter == blocks[|blocks| - 1].FooterAddr()
      && (lastFooter + FOOTER) % PAGE == 0
      && lastFooter + FOOTER <= SIZE_MAX
    }

    ghost predicate Valid()
      reads this
    {
      initialized ==> Shaped() && Settled(blocks) && growSize > 0
    }

    constructor ()
      ensures Valid() && !initialized
    {
      initialized := false;
      mem := Memory(map[], map[], map[]);
      freeRegions, first, lastFooter, growSize := 0, 0, 0, 0;
      blocks := [];
    }

    method Initialize(start: int, granted: bool) returns (ok: bool)
      requires Valid() && !initialized
      requires start > 0 && start % PAGE == 0 && start + 5 * PAGE <= SIZE_MAX
      modifies this
      ensures Valid() && initialized == ok == granted
      ensures ok ==> growSize == 10 && first == start && blocks == [Block(start, 5 * PAGE - OVERHEAD, true, true)]
    {
      growSize := 5;
      if !granted { return false; }
      freeRegions := start;
      first := freeRegions;
      var size := 5 * PAGE - HEADER - FOOTER;
      var footer := first + HEADER + size;
      var m1 := PutHeader(mem, freeRegions, Header(true, size, 0, 0));
      var m2 := PutFooter(m1, footer, freeRegions);
      var m3 := PutHeader(m2, freeRegions, Header(true, size, 0, footer));
      AppendCells(m1, m2, m3, start, footer, Header(true, size, 0, footer));
      mem := m3;
      lastFooter := footer;
      if growSize < MAX_GROW { growSize := growSize * 2; }
      initialized := true;
      blocks := [Block(start, size, true, true)];
      assert Tagged(mem, blocks[0]) && Linked(mem, blocks, 0);
      return true;
    }

    /** Walks the list to the block whose `next` is `block`; `prev` is 0 if there is none. */
    method Predecessor(block: int, ghost i: nat) returns (prev: int, ghost j: nat)
      requires Laid(mem, blocks, first, freeRegions)
      requires i < |blocks| && blocks[i].addr == block && freeRegions != 0 && freeRegions != block
      ensures blocks[i].listed <==> prev != 0
      ensures prev != 0 ==> j < i && blocks[j].addr == prev && blocks[j].listed && FirstListed(blocks, j + 1) == i
    {
      AddressesPositive(blocks, first);
      j := FirstListed(blocks, 0);
      SameAddr(blocks, first, j, i);
      prev := freeRegions;
      assert Tagged(mem, blocks[j]) && Linked(mem, blocks, j);
      while mem.headers[prev].next != 0 && mem.headers[prev].next != block
        invariant j < |blocks| && blocks[j].listed && blocks[j].addr == prev
        invariant Tagged(mem, blocks[j]) && Linked(mem, blocks, j)
        invariant blocks[i].listed ==> j < i
        decreases |blocks| - j
      {
        prev := mem.headers[prev].next;
        j := FirstListed(blocks, j + 1);
        SameAddr(blocks, first, j, i);
        assert Tagged(mem, blocks[j]) && Linked(mem, blocks, j);
      }
      ghost var r := FirstListed(blocks, j + 1);
      if r < |blocks| { SameAddr(blocks, first, r, i); }
      if mem.headers[prev].next != block { prev := 0; }
    }

    method RemoveFromFreeList(block: int, ghost i: nat)
      requires Laid(mem, blocks, first, freeRegions)
      requires i < |blocks| && blocks[i].addr == block
      modifies `mem, `freeRegions, `blocks
      ensures blocks == old(blocks)[i := old(blocks)[i].(listed := false)]
      ensures Laid(mem, blocks, first, freeRegions)
      ensures PayloadsKept(old(mem), mem, old(blocks))
    {
      ghost var bs, m := blocks, mem;
      ghost var bs' := bs[i := bs[i].(listed := false)];
      AddressesPositive(bs, first);
      assert Tagged(mem, bs[i]);
      if freeRegions == 0 {
        assert bs' == bs;
        return;
      }
      if freeRegions == block {
        SameAddr(bs, first, FirstListed(bs, 0), i);
        DropHead(m, bs, bs', first, freeRegions, i);
        freeRegions := mem.headers[block].next;
        mem := SetNext(mem, block, 0);
        blocks := bs';
        return;
      }
      ghost var j;
      var prev;
      prev, j := Predecessor(block, i);
      if prev == 0 {
        assert bs' == bs;
        return;
      }
      assert Tagged(mem, bs[j]);
      SetNextKeeps(mem, bs, first, j, mem.headers[block].next);
      mem := SetNext(mem, prev, mem.headers[block].next);
      ghost var m1 := mem;
      mem := SetNext(mem, block, 0);
      blocks := bs';
      DropAfter(m, m1, mem, bs, bs', first, freeRegions, j, i);
    }

    /** The last listed block that lies below `block`. */
    method Below(block: int, ghost i: nat) returns (prev: int, ghost j: nat)
      requires Laid(mem, blocks, first, freeRegions)
      requires i < |blocks| && blocks[i].addr == block && !blocks[i].listed
      requires freeRegions != 0 && freeRegions <= block
      ensures j < i && blocks[j].addr == prev && blocks[j].listed && FirstListed(blocks, j + 1) > i
    {
      AddressesPositive(blocks, first);
      j := FirstListed(blocks, 0);
      SameAddr(blocks, first, j, i);
      prev := freeRegions;
      assert Tagged(mem, blocks[j]) && Linked(mem, blocks, j);
      while mem.headers[prev].next != 0 && mem.headers[prev].next < block
        invariant j < i && blocks[j].listed && blocks[j].addr == prev
        invariant Tagged(mem, blocks[j]) && Linked(mem, blocks, j)
        decreases |blocks| - j
      {
        prev := mem.headers[prev].next;
        j := FirstListed(blocks, j + 1);
        SameAddr(blocks, first, j, i);
        assert Tagged(mem, blocks[j]) && Linked(mem, blocks, j);
      }
      ghost var r := FirstListed(blocks, j + 1);
      if r < |blocks| { SameAddr(blocks, first, r, i); }
    }

    method InsertFreeBlock(block: int, ghost i: nat)
      requires Laid(mem, blocks, first, freeRegions)
      requires i < |blocks| && blocks[i].addr == block && !blocks[i].listed
      modifies `mem, `freeRegions, `blocks
      ensures blocks == old(blocks)[i := old(blocks)[i].(free := true, listed := true)]
      ensures Laid(mem, blocks, first, freeRegions)
      ensures PayloadsKept(old(mem), mem, old(blocks)[i := old(blocks)[i].(free := true)])
    {
      hide PutHeader, PayloadsKept, SameBytes, SetNext;
      ghost var bs0, m0 := blocks, mem;
      ghost var bs := bs0[i := bs0[i].(free := true)];
      ghost var bs' := bs0[i := bs0[i].(free := true, listed := true)];
      Reflag(mem, bs0, bs, first, freeRegions, i, true);
      mem := PutHeader(mem, block, mem.headers[block].(isFree := true));
      blocks := bs;
      ghost var m := mem;
      if freeRegions == 0 || block < freeRegions {
        HeadAbove(bs, first, freeRegions, i);
        PushHead(m, bs, bs', first, freeRegions, i);
        mem := SetNext(mem, block, freeRegions);
        freeRegions := block;
      } else {
        ghost var j;
        var prev;
        prev, j := Below(block, i);
        assert Tagged(mem, bs[j]) && Tagged(mem, bs[i]);
        SetNextKeeps(mem, bs, first, i, mem.headers[prev].next);
        mem := SetNext(mem, block, mem.headers[prev].next);
        ghost var m1 := mem;
        mem := SetNext(mem, prev, block);
        PushAfter(m, m1, mem, bs, bs', first, freeRegions, j, i);
      }
      KeptFreed(m0, m, bs0, i);
      KeptTrans(m0, m, mem, bs);
      blocks := bs';
    }

    method MergeBlocks(a: int, b: int, ghost i: nat)
      requires Laid(mem, blocks, first, freeRegions)
      requires i + 1 < |blocks| && blocks[i].addr == a && blocks[i + 1].addr == b
      requires !blocks[i].listed && !blocks[i + 1].listed && blocks[i].free && blocks[i + 1].free
      modifies `mem, `blocks
      ensures blocks == Merged(old(blocks), i)
      ensures Laid(mem, blocks, first, freeRegions)
      ensures PayloadsKept(old(mem), mem, old(blocks))
    {
      ghost var bs, m := blocks, mem;
      assert Tagged(m, bs[i]) && Tagged(m, bs[i + 1]) && bs[i].End() == bs[i + 1].addr;
      var m1 := PutFooter(mem, mem.headers[a].footer, 0);
      var m2 := PutHeader(m1, a, m1.headers[a].(footer := m1.headers[b].footer));
      var m3 := PutFooter(m2, m2.headers[a].footer, a);
      var m4 := PutHeader(m3, a, m3.headers[a].(next := m3.headers[b].next,
                                                size := m3.headers[a].size + m3.headers[b].size + OVERHEAD));
      var m5 := PutHeader(m4, b, Header(false, 0, 0, 0));
      MergeWrites(m, m1, m2, m3, m4, m5, bs[i], bs[i + 1]);
      MergeTagged(m, m5, bs, first, i);
      MergeThreaded(m, m5, bs, i, freeRegions);
      mem := m5;
      blocks := Merged(bs, i);
    }

    /** split_region together with the store of the new size that follows it. */
    method SplitRegion(block: int, size: nat, ghost i: nat) returns (leftover: int)
      requires Laid(mem, blocks, first, freeRegions)
      requires i < |blocks| && blocks[i].addr == block && blocks[i].size > size + OVERHEAD
      modifies `mem, `blocks
      ensures blocks == Split(old(blocks), i, size) && leftover == blocks[i + 1].addr
      ensures Laid(mem, blocks, first, freeRegions)
      ensures forall j {:trigger old(blocks)[j]} :: 0 <= j < |old(blocks)| && j != i ==>
        SameBytes(old(mem), mem, old(blocks)[j].Payload(), old(blocks)[j].FooterAddr())
    {
      assert Tagged(mem, blocks[i]);
      var h := mem.headers[block];
      leftover := block + HEADER + FOOTER + size;
      var h1 := Header(false, 0, 0, h.footer);
      var m1 := PutHeader(mem, leftover, h1);
      var m2 := PutFooter(m1, h.footer, leftover);
      var m3 := PutFooter(m2, leftover - FOOTER, block);
      var h4 := h.(footer := leftover - FOOTER);
      var m4 := PutHeader(m3, block, h4);
      var h5 := Header(true, h.size - size - HEADER - FOOTER, h.next, h.footer);
      var m5 := PutHeader(m4, leftover, h5);
      var h6 := h4.(size := size);
      var m6 := PutHeader(m5, block, h6);
      ghost var bs' := Split(blocks, i, size);
      SplitLaid(mem, m1, m2, m3, m4, m5, m6, block, leftover, h.footer, h1, h4, h5, h6,
                blocks, bs', first, freeRegions, i, size);
      mem := m6;
      blocks := bs';
    }

    method ReplaceFreeListBlock(oldBlock: int, newBlock: int, ghost i: nat)
      requires Laid(mem, blocks, first, freeRegions)
      requires i + 1 < |blocks| && blocks[i].addr == oldBlock && blocks[i + 1].addr == newBlock
      requires blocks[i].listed && blocks[i + 1].free && !blocks[i + 1].listed
      modifies `mem, `freeRegions, `blocks
      ensures blocks == old(blocks)[i := old(blocks)[i].(listed := false)][i + 1 := old(blocks)[i + 1].(listed := true)]
      ensures Laid(mem, blocks, first, freeRegions)
      ensures PayloadsKept(old(mem), mem, old(blocks))
    {
      ghost var bs, m := blocks, mem;
      ghost var bs' := bs[i := bs[i].(listed := false)][i + 1 := bs[i + 1].(listed := true)];
      AddressesPositive(bs, first);
      assert Tagged(mem, bs[i]) && Tagged(mem, bs[i + 1]);
      if freeRegions == oldBlock {
        SameAddr(bs, first, FirstListed(bs, 0), i);
        SetNextKeeps(mem, bs, first, i + 1, mem.headers[oldBlock].next);
        var m1 := SetNext(mem, newBlock, mem.headers[oldBlock].next);
        var m2 := SetNext(m1, oldBlock, 0);
        ReplaceHead(m, m1, m2, bs, bs', first, freeRegions, i);
        mem := m2;
        freeRegions := newBlock;
        blocks := bs';
        return;
      }
      ghost var j;
      var prev;
      prev, j := Predecessor(oldBlock, i);
      SetNextKeeps(mem, bs, first, i + 1, mem.headers[oldBlock].next);
      var m1 := SetNext(mem, newBlock, mem.headers[oldBlock].next);
      SetNextKeeps(m1, bs, first, j, newBlock);
      var m2 := SetNext(m1, prev, newBlock);
      SetNextKeeps(m2, bs, first, i, 0);
      var m3 := SetNext(m2, oldBlock, 0);
      ReplaceAfter(m, m1, m2, m3, bs, bs', first, freeRegions, j, i);
      mem := m3;
      blocks := bs';
    }

    method OccupyBlock(block: int, size: nat, ghost i: nat)
      requires Laid(mem, blocks, first, freeRegions)
      requires i < |blocks| && blocks[i].addr == block && blocks[i].free && blocks[i].listed && blocks[i].size >= size
      modifies `mem, `freeRegions, `blocks
      ensures blocks == Occupied(old(blocks), i, size)
      ensures Laid(mem, blocks, first, freeRegions)
      ensures PayloadsKept(old(mem), mem, old(blocks))
    {
      hide PutHeader, PutFooter, Laid, SameBytes, PayloadsKept;
      ghost var bs0, m0 := blocks, mem;
      ghost var bs := bs0[i := bs0[i].(free := false)];
      Reflag(mem, bs0, bs, first, freeRegions, i, false);
      mem := PutHeader(mem, block, mem.headers[block].(isFree := false));
      blocks := bs;
      ghost var m1 := mem;
      if mem.headers[block].size <= size + HEADER + FOOTER {
        RemoveFromFreeList(block, i);
        ReflagPayloads(m1, mem, bs0, i);
        KeptTrans(m0, m1, mem, bs0);
      } else {
        var leftover := SplitRegion(block, size, i);
        ghost var m2, mid := mem, blocks;
        ReplaceFreeListBlock(block, leftover, i);
        SplitPayloads(m0, m1, m2, mem, bs0, mid, i, size);
      }
      assert blocks == Occupied(bs0, i, size);
      ghost var m3 := mem;
      SetNextLaid(mem, blocks, first, freeRegions, i, 0);
      mem := SetNext(mem, block, 0);
      OccupiedPayloads(m3, mem, bs0, i, size);
      KeptTrans(m0, m3, mem, bs0);
    }

    predicate HeaderInHeap(block: int)
      reads this
    {
      block != 0 && block >= first && block + HEADER <= lastFooter
    }

    predicate FooterInHeap(footer: int)
      reads this
    {
      footer != 0 && footer >= first && footer <= lastFooter
    }

    method GetNext(block: int, ghost i: nat) returns (next: int)
      requires Shaped() && i < |blocks| && blocks[i].addr == block
      ensures next == if i + 1 < |blocks| then blocks[i + 1].addr else 0
    {
      TiledBounds(blocks, first, i);
      assert Tagged(mem, blocks[i]);
      if i + 1 < |blocks| {
        TiledBounds(blocks, first, i + 1);
        assert Tagged(mem, blocks[i + 1]) && blocks[i].End() == blocks[i + 1].addr;
      }
      if !HeaderInHeap(block) || !FooterInHeap(mem.headers[block].footer) { return 0; }
      next := mem.headers[block].footer + FOOTER;
      if next >= lastFooter { return 0; }
      if !HeaderInHeap(next) || !FooterInHeap(mem.headers[next].footer) { return 0; }
      if mem.footers[mem.headers[next].footer] != next { return 0; }
    }

    method GetPrevious(block: int, ghost i: nat) returns (previous: int)
      requires Shaped() && i < |blocks| && blocks[i].addr == block
      ensures previous == if i > 0 then blocks[i - 1].addr else 0
    {
      TiledBounds(blocks, first, i);
      if i > 0 {
        TiledBounds(blocks, first, i - 1);
        assert Tagged(mem, blocks[i - 1]) && blocks[i - 1].End() == blocks[i - 1 + 1].addr;
      }
      if !HeaderInHeap(block) { return 0; }
      if block < first + HEADER + FOOTER { return 0; }
      var footer := block - FOOTER;
      if !FooterInHeap(footer) { return 0; }
      previous := mem.footers[footer];
      if !HeaderInHeap(previous) { return 0; }
      if previous >= block { return 0; }
      if mem.headers[previous].footer != footer { return 0; }
    }

    /** Takes block `off`, which is i or i+1, off the list and merges blocks i and i+1. */
    method Absorb(off: int, a: int, b: int, ghost i: nat, ghost r: nat)
      requires Shaped() && i + 1 < |blocks| && blocks[i].addr == a && blocks[i + 1].addr == b
      requires blocks[i].free && blocks[i + 1].free && (r == i || r == i + 1) && off == blocks[r].addr
      requires !blocks[if r == i then i + 1 else i].listed
      modifies `mem, `freeRegions, `blocks
      ensures Shaped()
      ensures blocks == Merged(old(blocks)[r := old(blocks)[r].(listed := false)], i)
      ensures Live(blocks) == Live(old(blocks)) && LiveKept(old(mem), mem, Live(blocks))
    {
      hide AllTagged, Threaded, PayloadsKept, SameBytes, Live, LiveKept;
      ghost var m0, bs0 := mem, blocks;
      assert bs0[i].End() == bs0[i + 1].addr;
      RemoveFromFreeList(off, r);
      ghost var m1, bs1 := mem, blocks;
      LiveKeptFromPayloads(m0, m1, bs0);
      LiveUpdate(bs0, r, bs1[r]);
      MergeBlocks(a, b, i);
      LiveKeptFromPayloads(m1, mem, bs1);
      LiveKeptTrans(m0, m1, mem, Live(bs0));
      LiveMerged(bs1, i);
      MergedEnds(bs1, i);
    }

    /** A free block before the freed block i is merged with it. */
    method CoalesceBack(block: int, ghost i: nat) returns (merged: int, ghost k: nat)
      requires Shaped() && SettledBut(blocks, i) && blocks[i].addr == block
      modifies `mem, `freeRegions, `blocks
      ensures Shaped() && SettledBut(blocks, k) && blocks[k].addr == merged
      ensures k > 0 ==> !blocks[k - 1].free
      ensures Live(blocks) == Live(old(blocks)) && LiveKept(old(mem), mem, Live(blocks))
    {
      ghost var bs0 := blocks;
      var previous := GetPrevious(block, i);
      AddressesPositive(blocks, first);
      if i > 0 { assert Tagged(mem, blocks[i - 1]); }
      merged, k := block, i;
      if previous != 0 && mem.headers[previous].isFree {
        Absorb(previous, previous, block, i - 1, i - 1);
        MergedBack(bs0, i);
        merged, k := previous, i - 1;
      }
    }

    /** A free block behind the freed block i is merged into it. */
    method CoalesceForward(block: int, ghost i: nat)
      requires Shaped() && SettledBut(blocks, i) && blocks[i].addr == block
      requires i > 0 ==> !blocks[i - 1].free
      modifies `mem, `freeRegions, `blocks
      ensures Shaped() && SettledBut(blocks, i) && blocks[i].addr == block
      ensures i > 0 ==> !blocks[i - 1].free
      ensures i + 1 < |blocks| ==> !blocks[i + 1].free
      ensures Live(blocks) == Live(old(blocks)) && LiveKept(old(mem), mem, Live(blocks))
    {
      ghost var bs0 := blocks;
      var next := GetNext(block, i);
      AddressesPositive(blocks, first);
      if i + 1 < |blocks| { assert Tagged(mem, blocks[i + 1]); }
      if next != 0 && mem.headers[next].isFree {
        Absorb(next, block, next, i, i + 1);
        MergedForward(bs0, i);
      }
    }

    /** The occupied block i becomes free; it is not on the list yet. */
    method MarkFree(block: int, ghost i: nat)
      requires Shaped() && Settled(blocks) && i < |blocks| && blocks[i].addr == block && !blocks[i].free
      modifies `mem, `blocks
      ensures Shaped() && SettledBut(blocks, i) && blocks[i].addr == block
      ensures Live(blocks) == Live(old(blocks)) - {(block, old(blocks)[i].size)}
      ensures LiveKept(old(mem), mem, Live(blocks))
    {
      hide AllTagged, Threaded, PayloadsKept, SameBytes, Live, LiveKept, Settled, SettledBut, PutHeader, SetNext;
      ghost var m0, bs0 := mem, blocks;
      ghost var bs := bs0[i := bs0[i].(free := true)];
      SettledMark(bs0, i);
      Reflag(mem, bs0, bs, first, freeRegions, i, true);
      mem := PutHeader(mem, block, mem.headers[block].(isFree := true));
      blocks := bs;
      ghost var m1 := mem;
      SetNextLaid(mem, bs, first, freeRegions, i, 0);
      mem := SetNext(mem, block, 0);
      LiveFreed(bs0, first, i);
      LiveKeptFromPayloads(m0, m1, bs0);
      LiveKeptLess(m0, m1, Live(bs0), Live(bs));
      LiveKeptFromPayloads(m1, mem, bs);
      LiveKeptTrans(m0, m1, mem, Live(bs));
    }

    ghost predicate IsPayload(ptr: int)
      reads this
    {
      exists i :: 0 <= i < |blocks| && blocks[i].Payload() == ptr
    }

    /** What memory shows in front of `ptr`, as a header and as what its footer holds: the tags of the
        block whose payload it is, or else any bytes that the test of hfree turns away. */
    ghost predicate Shown(ptr: int, h: Header, back: int)
      reads this
    {
      if IsPayload(ptr) then
        ptr - HEADER in mem.headers && h == mem.headers[ptr - HEADER] && h.footer in mem.footers &&
          back == mem.footers[h.footer]
      else
        !FooterInHeap(h.footer) || back != ptr - HEADER || h.isFree
    }

    /** The tags of the block with this payload. */
    method Tags(ptr: int) returns (h: Header, back: int)
      requires Valid() && initialized && IsPayload(ptr)
      ensures Shown(ptr, h, back)
    {
      ghost var i :| 0 <= i < |blocks| && blocks[i].Payload() == ptr;
      assert Tagged(mem, blocks[i]);
      h := mem.headers[ptr - HEADER];
      back := mem.footers[h.footer];
    }

    /** hfree of any pointer; `h` and `back` are what it reads in front of a pointer into the heap. */
    method Free(ptr: int, h: Header, back: int)
      requires Valid()
      requires initialized && first + HEADER <= ptr < lastFooter + HEADER ==> Shown(ptr, h, back)
      modifies `mem, `freeRegions, `blocks
      ensures Valid()
      ensures initialized ==> Live(blocks) == LiveWithout(Live(old(blocks)), ptr)
      ensures LiveKept(old(mem), mem, Live(blocks))
      ensures !initialized || (forall n :: !Owned(old(blocks), ptr, n)) ==>
        mem == old(mem) && blocks == old(blocks) && freeRegions == old(freeRegions)
    {
      hide Live, LiveWithout, LiveKept, Settled, SameBytes, Threaded;
      LiveKeptSelf(mem, Live(blocks));
      if !initialized { return; }
      BlocksInside();
      if ptr == 0 || ptr - HEADER < first || ptr - HEADER >= lastFooter {
        LiveWithoutNobody(blocks, first, ptr);
        return;
      }
      var block := ptr - HEADER;
      if !IsPayload(ptr) { LiveWithoutNobody(blocks, first, ptr); }
      ghost var i := if IsPayload(ptr) then BlockOf(ptr) else 0;
      if IsPayload(ptr) {
        assert Tagged(mem, blocks[i]);
        TiledBounds(blocks, first, i);
        OneBlockAt(blocks, first, i);
      }
      if !FooterInHeap(h.footer) || back != block { return; }
      if h.isFree {
        LiveWithoutNobody(blocks, first, ptr);
        return;
      }
      LiveWithoutBlock(blocks, first, i);
      LiveAt(blocks, i);
      assert Owned(blocks, ptr, blocks[i].size);
      FreeBlock(block, i);
    }

    ghost function BlockOf(ptr: int): (i: nat)
      requires IsPayload(ptr)
      reads this
      ensures i < |blocks| && blocks[i].Payload() == ptr
    {
      var i :| 0 <= i < |blocks| && blocks[i].Payload() == ptr;
      i
    }

    lemma BlocksInside()
      requires Shaped()
      ensures forall i :: 0 <= i < |blocks| ==> first <= blocks[i].addr < lastFooter
    {
      forall i | 0 <= i < |blocks| ensures first <= blocks[i].addr < lastFooter {
        TiledBounds(blocks, first, i);
      }
    }

    /** The last step of a free and of a growth: the merged block goes onto the list. */
    method InsertMerged(block: int, ghost k: nat)
      requires Shaped() && SettledBut(blocks, k) && blocks[k].addr == block
      requires (k > 0 ==> !blocks[k - 1].free) && (k + 1 < |blocks| ==> !blocks[k + 1].free)
      modifies `mem, `freeRegions, `blocks
      ensures Shaped() && Settled(blocks)
      ensures |blocks| == |old(blocks)| && blocks[k] == old(blocks)[k].(listed := true)
      ensures Live(blocks) == Live(old(blocks)) && LiveKept(old(mem), mem, Live(blocks))
    {
      hide AllTagged, Threaded, PayloadsKept, SameBytes, Live, LiveKept, Settled;
      ghost var m3, bs3 := mem, blocks;
      SettledInsert(bs3, k);
      InsertFreeBlock(block, k);
      LiveUpdate(bs3, k, blocks[k]);
      LiveKeptFromPayloads(m3, mem, bs3);
    }

    method FreeBlock(block: int, ghost i: nat)
      requires Shaped() && Settled(blocks) && i < |blocks| && blocks[i].addr == block && !blocks[i].free
      modifies `mem, `freeRegions, `blocks
      ensures Shaped() && Settled(blocks)
      ensures Live(blocks) == Live(old(blocks)) - {(block, old(blocks)[i].size)}
      ensures LiveKept(old(mem), mem, Live(blocks))
    {
      hide AllTagged, Threaded, Tiled, PayloadsKept, SameBytes, Live, LiveKept, Settled;
      ghost var m0 := mem;
      MarkFree(block, i);
      ghost var m1 := mem;
      ghost var k;
      var merged;
      merged, k := CoalesceBack(block, i);
      ghost var m2 := mem;
      LiveKeptTrans(m0, m1, m2, Live(blocks));
      CoalesceForward(merged, k);
      ghost var m3 := mem;
      LiveKeptTrans(m0, m2, m3, Live(blocks));
      InsertMerged(merged, k);
      LiveKeptTrans(m0, m3, mem, Live(blocks));
    }

    /** Where the next pages would go. */
    function End(): int
      reads this
    {
      lastFooter + FOOTER
    }

    ghost function Now(): Stage
      reads this
    {
      Stage(blocks, End(), growSize)
    }

    method MapHeapPages(addr: int, pages: nat, grant: PageSource) returns (r: int)
      requires addr == End()
      ensures r == if Granted(grant, End(), pages) then addr else 0
    {
      r := if grant(addr, pages) && addr + pages * PAGE <= SIZE_MAX then addr else 0;
    }

    /** The new pages become a free block behind the last one, not on the list yet. */
    method AppendBlock(pages: nat, newPages: int) returns (newBlock: int)
      requires Shaped() && pages > 0 && newPages == lastFooter + FOOTER && newPages + pages * PAGE <= SIZE_MAX
      modifies `mem, `blocks, `lastFooter
      ensures Shaped() && newBlock == blocks[|blocks| - 1].addr
      ensures blocks == old(blocks) + [Block(newPages, pages * PAGE - OVERHEAD, true, false)]
      ensures PayloadsKept(old(mem), mem, old(blocks))
    {
      hide PutHeader, PutFooter, AgreeOutside, PayloadsKept, SameBytes, AllTagged, Threaded;
      newBlock := lastFooter + FOOTER;
      var difference := newPages - (lastFooter + FOOTER);
      var size := pages * PAGE + difference - HEADER - FOOTER;
      var footer := newBlock + HEADER + size;
      var h1 := Header(true, size, 0, 0);
      var m1 := PutHeader(mem, newBlock, h1);
      var m2 := PutFooter(m1, footer, newBlock);
      var h3 := h1.(footer := footer);
      var m3 := PutHeader(m2, newBlock, h3);
      ghost var b := Block(newBlock, size, true, false);
      AppendAgrees(mem, m1, m2, m3, newBlock, footer, h1, h3);
      AppendCells(m1, m2, m3, newBlock, footer, h3);
      AppendLaid(mem, m3, blocks, b, first, freeRegions);
      mem := m3;
      lastFooter := footer;
      blocks := blocks + [b];
    }

    method GrowHeapBy(pages: nat, grant: PageSource) returns (block: int, ghost k: nat)
      requires Shaped() && Settled(blocks)
      modifies `mem, `freeRegions, `blocks, `lastFooter
      ensures Shaped() && Settled(blocks)
      ensures Live(blocks) == Live(old(blocks)) && LiveKept(old(mem), mem, Live(blocks))
      ensures block == 0 <==> pages == 0 || !Granted(grant, old(End()), pages)
      ensures End() == if block == 0 then old(End()) else old(End()) + pages * PAGE
      ensures block != 0 ==>
        k < |blocks| && blocks[k].addr == block && blocks[k].free && blocks[k].size >= pages * PAGE - OVERHEAD
      ensures block != 0 ==>
        var last := old(blocks)[|old(blocks)| - 1];
        block == (if last.free then last.addr else old(End())) && blocks[k].End() == End()
    {
      hide PayloadsKept, SameBytes, Live, LiveKept, Settled, Threaded;
      ghost var m0, bs0 := mem, blocks;
      LiveKeptSelf(mem, Live(blocks));
      block, k := 0, 0;
      if pages == 0 { return; }
      AlignedUp(lastFooter + FOOTER);
      var newPages := MapHeapPages(AlignUp(lastFooter + FOOTER), pages, grant);
      AddressesPositive(blocks, first);
      if newPages == 0 { return; }
      assert Tagged(mem, bs0[|bs0| - 1]);
      var lastBlock := mem.footers[lastFooter];
      var lastFree := mem.headers[lastBlock].isFree;
      block := AppendBlock(pages, newPages);
      k := |bs0|;
      ghost var m1, bs1 := mem, blocks;
      LiveKeptFromPayloads(m0, m1, bs0);
      LiveAppended(bs0, bs1[k]);
      SettledAppend(bs0, bs1[k]);
      if lastFree {
        Absorb(lastBlock, lastBlock, block, k - 1, k - 1);
        LiveKeptTrans(m0, m1, mem, Live(blocks));
        MergedBack(bs1, k);
        block, k := lastBlock, k - 1;
      }
      ghost var m2 := mem;
      InsertMerged(block, k);
      LiveKeptTrans(m0, m2, mem, Live(blocks));
    }

    /** Walks the free list to the first block that is large enough. */
    method FindFirstFit(size: nat) returns (block: int, ghost k: nat)
      requires Shaped() && Settled(blocks)
      ensures block != 0 <==> HasFit(blocks, size)
      ensures block != 0 ==> FirstFit(blocks, size, k) && blocks[k].addr == block
    {
      AddressesPositive(blocks, first);
      block := freeRegions;
      k := FirstListed(blocks, 0);
      while block != 0
        invariant k <= |blocks| && block == (if k < |blocks| then blocks[k].addr else 0)
        invariant k < |blocks| ==> blocks[k].listed
        invariant forall j :: 0 <= j < k && blocks[j].free ==> blocks[j].size < size
        decreases |blocks| - k
      {
        assert Tagged(mem, blocks[k]) && Linked(mem, blocks, k);
        if mem.headers[block].size >= size && mem.headers[block].isFree { return; }
        block := mem.headers[block].next;
        k := FirstListed(blocks, k + 1);
      }
    }

    lemma SomeBlock()
      requires Shaped()
      ensures blocks != []
    {
    }

    method Malloc(size: Size, grant: PageSource) returns (ptr: int, ghost usable: nat)
      requires Valid()
      modifies this
      ensures Valid() && initialized == old(initialized) && first == old(first)
      ensures LiveKept(old(mem), mem, Live(old(blocks)))
      ensures ptr == 0 ==> Live(blocks) == Live(old(blocks))
      ensures if initialized then Served(old(Now()), size, grant, ptr, usable, Now()) else ptr == 0
      ensures old(End()) <= End() && old(growSize) <= growSize <= old(growSize) + 1
      ensures ptr != 0 ==> Live(blocks) == Live(old(blocks)) + {(ptr - HEADER, usable)}
      ensures ptr != 0 ==> (ptr - HEADER, usable) !in Live(old(blocks)) && size <= usable <= size + OVERHEAD
    {
      hide PayloadsKept, SameBytes, Live, LiveKept, Settled, AllTagged, Threaded, Tiled;
      LiveKeptSelf(mem, Live(blocks));
      ghost var m0, live, s := mem, Live(blocks), Now();
      ptr, usable := 0, 0;
      if !initialized { return; }
      if !SizeFits(size) { return; }
      SomeBlock();
      var pages := BytesToPages(size);
      var block;
      ghost var k;
      if pages > growSize {
        block, k := GrowHeapBy(pages, grant);
        if block == 0 { return; }
      } else {
        block, k := FindFirstFit(size);
        if block == 0 {
          growSize := growSize + 1;
          block, k := GrowHeapBy(growSize - 1, grant);
          if block == 0 { return; }
        }
      }
      ghost var m1 := mem;
      usable := TakeBlock(block, size, k);
      LiveKeptTrans(m0, m1, mem, live);
      ptr := block + HEADER;
    }

    /** occupy_block on the free block k, from one settled layout to the next. */
    method TakeBlock(block: int, size: nat, ghost k: nat) returns (ghost usable: nat)
      requires Shaped() && Settled(blocks)
      requires k < |blocks| && blocks[k].addr == block && blocks[k].free && blocks[k].size >= size
      modifies `mem, `freeRegions, `blocks
      ensures Shaped() && Settled(blocks)
      ensures Live(blocks) == Live(old(blocks)) + {(block, usable)}
      ensures (block, usable) !in Live(old(blocks)) && size <= usable <= size + OVERHEAD && block > 0
      ensures usable == Taken(old(blocks)[k].size, size)
      ensures LiveKept(old(mem), mem, Live(old(blocks)))
    {
      hide PayloadsKept, SameBytes, Live, LiveKept, Settled, AllTagged, Threaded, Tiled;
      ghost var m0, bs0 := mem, blocks;
      SettledOccupied(bs0, k, size);
      OccupiedEnds(bs0, k, size);
      AddressesPositive(bs0, first);
      OccupyBlock(block, size, k);
      usable := blocks[k].size;
      LiveOccupied(bs0, k, size);
      FreeIsNotLive(bs0, first, k, usable);
      LiveKeptFromPayloads(m0, mem, bs0);
    }

    method UsableSize(ptr: int, h: Header, back: int) returns (size: nat)
      requires Valid()
      requires initialized && first + HEADER <= ptr < lastFooter + HEADER ==> Shown(ptr, h, back)
      ensures !initialized ==> size == 0
      ensures initialized ==> if exists n :: Owned(blocks, ptr, n) then Owned(blocks, ptr, size) else size == 0
    {
      if !initialized { return 0; }
      BlocksInside();
      LiveBlocks(blocks);
      if ptr == 0 || ptr - HEADER < first || ptr - HEADER >= lastFooter { return 0; }
      var block := ptr - HEADER;
      ghost var i := if IsPayload(ptr) then BlockOf(ptr) else 0;
      if IsPayload(ptr) {
        assert Tagged(mem, blocks[i]);
        TiledBounds(blocks, first, i);
        OneBlockAt(blocks, first, i);
      }
      if !FooterInHeap(h.footer) || back != block || h.isFree { return 0; }
      LiveAt(blocks, i);
      size := h.size;
      assert Owned(blocks, ptr, size);
    }

    /** A client stores one byte into the payload of an occupied block it owns. */
    method Store(ghost p: (int, nat), a: int, b: Byte)
      requires Valid() && initialized && p in Live(blocks) && p.0 + HEADER <= a < p.0 + HEADER + p.1
      modifies `mem
      ensures Valid() && ByteAt(mem, a) == b
      ensures forall x :: x != a ==> ByteAt(mem, x) == old(ByteAt(mem, x))
    {
      ghost var i := LiveIndex(blocks, p);
      StoreLaid(mem, blocks, first, freeRegions, i, a, b);
      mem := PutByte(mem, a, b);
    }
  }
}
