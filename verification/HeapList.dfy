/** How the free list and the block layout react to the allocator's few kinds of write. */
module HeapList {
  import opened HeapMemory

  /** Rewriting a block's own header touches nothing else. */
  lemma Reheader(m: Memory, bs: seq<Block>, first: int, i: nat, h: Header)
    requires Tiled(bs, first) && AllTagged(m, bs) && i < |bs|
    requires h.size == bs[i].size && h.footer == bs[i].FooterAddr()
    ensures var m' := PutHeader(m, bs[i].addr, h);
      var bs' := bs[i := bs[i].(free := h.isFree)];
      && Tiled(bs', first) && AllTagged(m', bs')
      && m'.headers[bs[i].addr] == h
      && (forall j {:trigger bs[j]} :: 0 <= j < |bs| && j != i ==> SameHeader(m, m', bs[j].addr))
      && PayloadsKept(m, m', bs)
  {
    var m' := PutHeader(m, bs[i].addr, h);
    assert Tagged(m, bs[i]);
    assert AgreeOutside(m, m', bs[i].addr, bs[i].addr + HEADER);
    AgreeElsewhere(m, m', bs, first, i, i);
  }

  /** Changing block i does not concern a search that starts behind i or stops at j before i. */
  lemma Unconcerned(bs: seq<Block>, i: nat, b: Block, k: nat, j: nat)
    requires i < |bs| && k <= |bs| && b.addr == bs[i].addr
    requires i < k || (k <= j < i && bs[j].listed)
    ensures NextListed(bs[i := b], k) == NextListed(bs, k)
  {
    FirstIs(bs[i := b], k, FirstListed(bs, k));
  }

  /** Block k, listed or not, has the same successor in both lists. */
  ghost predicate SameNext(bs: seq<Block>, bs': seq<Block>, k: nat)
    requires k < |bs| == |bs'|
  {
    bs[k].listed ==> NextListed(bs', k + 1) == NextListed(bs, k + 1)
  }

  /** j is the last listed block before i: only the successors of i and j can change. */
  lemma OthersKeep(bs: seq<Block>, bs': seq<Block>, j: nat, i: nat)
    requires j < i < |bs| && bs[j].listed
    requires forall x :: j < x < i ==> !bs[x].listed
    requires |bs'| == |bs| && bs' == bs[i := bs'[i]] && bs'[i].addr == bs[i].addr
    ensures NextListed(bs', 0) == NextListed(bs, 0)
    ensures NextListed(bs', i + 1) == NextListed(bs, i + 1)
    ensures forall k :: 0 <= k < |bs| && k != j ==> SameNext(bs, bs', k)
  {
    Unconcerned(bs, i, bs'[i], 0, j);
    Unconcerned(bs, i, bs'[i], i + 1, j);
    forall k | 0 <= k < |bs| && k != j
      ensures SameNext(bs, bs', k)
    {
      if bs[k].listed { Unconcerned(bs, i, bs'[i], k + 1, j); }
    }
  }

  /** Block i leaves the list; j is the listed block before it. */
  lemma Unlist(bs: seq<Block>, bs': seq<Block>, j: nat, i: nat)
    requires j < i < |bs| && bs[j].listed && FirstListed(bs, j + 1) == i
    requires bs' == bs[i := bs[i].(listed := false)]
    ensures NextListed(bs', j + 1) == NextListed(bs, i + 1)
    ensures NextListed(bs', 0) == NextListed(bs, 0)
    ensures forall k :: 0 <= k < |bs| && k != j ==> SameNext(bs, bs', k)
  {
    FirstIs(bs', j + 1, FirstListed(bs, i + 1));
    OthersKeep(bs, bs', j, i);
  }

  /** Block i leaves the head of the list. */
  lemma UnlistHead(bs: seq<Block>, bs': seq<Block>, i: nat)
    requires i < |bs| && FirstListed(bs, 0) == i
    requires bs' == bs[i := bs[i].(listed := false)]
    ensures NextListed(bs', 0) == NextListed(bs, i + 1)
    ensures forall k :: 0 <= k < |bs| ==> SameNext(bs, bs', k)
  {
    FirstIs(bs', 0, FirstListed(bs, i + 1));
    forall k | 0 <= k < |bs|
      ensures SameNext(bs, bs', k)
    {
      if bs[k].listed { Unconcerned(bs, i, bs'[i], k + 1, i); }
    }
  }

  /** Block i joins the list behind the listed block j. */
  lemma Enlist(bs: seq<Block>, bs': seq<Block>, j: nat, i: nat)
    requires j < i < |bs| && bs[j].listed && !bs[i].listed && FirstListed(bs, j + 1) > i
    requires bs' == bs[i := bs[i].(free := true, listed := true)]
    ensures NextListed(bs', j + 1) == bs[i].addr
    ensures NextListed(bs', i + 1) == NextListed(bs, j + 1)
    ensures NextListed(bs', 0) == NextListed(bs, 0)
    ensures forall k :: 0 <= k < |bs| && k != j ==> SameNext(bs, bs', k)
  {
    FirstIs(bs', j + 1, i);
    OthersKeep(bs, bs', j, i);
    FirstIs(bs, j + 1, FirstListed(bs, i + 1));
  }

  /** Block i joins the list at its head. */
  lemma EnlistHead(bs: seq<Block>, bs': seq<Block>, i: nat)
    requires i < |bs| && !bs[i].listed && FirstListed(bs, 0) > i
    requires bs' == bs[i := bs[i].(free := true, listed := true)]
    ensures NextListed(bs', 0) == bs[i].addr
    ensures NextListed(bs', i + 1) == NextListed(bs, 0)
    ensures forall k :: 0 <= k < |bs| ==> SameNext(bs, bs', k)
  {
    FirstIs(bs', 0, i);
    FirstIs(bs', i + 1, FirstListed(bs, 0));
    forall k | 0 <= k < |bs|
      ensures SameNext(bs, bs', k)
    {
      if bs[k].listed { Unconcerned(bs, i, bs'[i], k + 1, i); }
    }
  }

  function SetNext(m: Memory, a: int, next: int): Memory
    requires a in m.headers
  {
    PutHeader(m, a, m.headers[a].(next := next))
  }

  lemma SetNextKeeps(m: Memory, bs: seq<Block>, first: int, i: nat, next: int)
    requires Tiled(bs, first) && AllTagged(m, bs) && i < |bs|
    ensures Tagged(m, bs[i])
    ensures var m' := SetNext(m, bs[i].addr, next);
      && AllTagged(m', bs) && PayloadsKept(m, m', bs)
      && bs[i].addr in m'.headers && m'.headers[bs[i].addr] == m.headers[bs[i].addr].(next := next)
      && forall j {:trigger bs[j]} :: 0 <= j < |bs| && j != i ==> SameHeader(m, m', bs[j].addr)
  {
    assert Tagged(m, bs[i]);
    Reheader(m, bs, first, i, m.headers[bs[i].addr].(next := next));
    assert bs[i := bs[i]] == bs;
  }

  /** Two `next` fields change, one after the other. */
  lemma SetTwoKeeps(m: Memory, m1: Memory, m2: Memory, bs: seq<Block>, first: int, i: nat, ni: int, j: nat, nj: int)
    requires Tiled(bs, first) && AllTagged(m, bs) && i < |bs| && j < |bs| && i != j
    requires bs[i].addr in m.headers && m1 == SetNext(m, bs[i].addr, ni)
    requires bs[j].addr in m1.headers && m2 == SetNext(m1, bs[j].addr, nj)
    ensures AllTagged(m2, bs) && PayloadsKept(m, m2, bs)
    ensures bs[i].addr in m2.headers && m2.headers[bs[i].addr].next == ni
    ensures bs[j].addr in m2.headers && m2.headers[bs[j].addr].next == nj
    ensures forall k {:trigger bs[k]} :: 0 <= k < |bs| && k != i && k != j ==> SameHeader(m, m2, bs[k].addr)
  {
    SetNextKeeps(m, bs, first, i, ni);
    SetNextKeeps(m1, bs, first, j, nj);
  }

  /** Unlinking the head of the list. */
  lemma DropHead(m: Memory, bs: seq<Block>, bs': seq<Block>, first: int, head: int, i: nat)
    requires Laid(m, bs, first, head) && i < |bs| && FirstListed(bs, 0) == i
    requires bs' == bs[i := bs[i].(listed := false)]
    ensures Tagged(m, bs[i])
    ensures var m' := SetNext(m, bs[i].addr, 0);
      Laid(m', bs', first, m.headers[bs[i].addr].next) && PayloadsKept(m, m', bs)
  {
    SetNextKeeps(m, bs, first, i, 0);
    UnlistHead(bs, bs', i);
    var m' := SetNext(m, bs[i].addr, 0);
    assert Linked(m, bs, i);
    forall k | 0 <= k < |bs'|
      ensures Tagged(m', bs'[k]) && Linked(m', bs', k)
    {
      assert Tagged(m', bs[k]) && Linked(m, bs, k) && SameNext(bs, bs', k);
    }
  }

  /** Blocks i, j and l have new `next` fields; nobody else's successor changed. */
  lemma Rethread(m: Memory, m2: Memory, bs: seq<Block>, bs': seq<Block>,
                 first: int, head: int, head': int, j: nat, i: nat, l: nat)
    requires Laid(m, bs, first, head) && j < |bs| && i < |bs| && l < |bs| && AllTagged(m2, bs)
    requires forall k {:trigger bs[k]} :: 0 <= k < |bs| && k != i && k != j && k != l ==> SameHeader(m, m2, bs[k].addr)
    requires |bs'| == |bs| && bs' == bs[i := bs[i].(listed := bs'[i].listed)][l := bs[l].(listed := bs'[l].listed)]
    requires NextListed(bs', 0) == head'
    requires forall k :: 0 <= k < |bs| && k != i && k != j && k != l ==> SameNext(bs, bs', k)
    requires Linked(m2, bs', i) && Linked(m2, bs', j) && Linked(m2, bs', l)
    ensures Laid(m2, bs', first, head')
  {
    forall k | 0 <= k < |bs'|
      ensures Tagged(m2, bs'[k]) && Linked(m2, bs', k)
    {
      assert Tagged(m2, bs[k]) && Linked(m, bs, k);
      if k != j && k != i && k != l { assert SameNext(bs, bs', k); }
    }
  }

  /** Unlinking block i behind its predecessor j. */
  lemma DropAfter(m: Memory, m1: Memory, m2: Memory, bs: seq<Block>,
                  bs': seq<Block>, first: int, head: int, j: nat, i: nat)
    requires Laid(m, bs, first, head) && j < i < |bs| && bs[j].listed && FirstListed(bs, j + 1) == i
    requires bs' == bs[i := bs[i].(listed := false)]
    requires Tagged(m, bs[i]) && Tagged(m, bs[j]) && m1 == SetNext(m, bs[j].addr, m.headers[bs[i].addr].next)
    requires bs[i].addr in m1.headers && m2 == SetNext(m1, bs[i].addr, 0)
    ensures Laid(m2, bs', first, head) && PayloadsKept(m, m2, bs)
  {
    SetTwoKeeps(m, m1, m2, bs, first, j, m.headers[bs[i].addr].next, i, 0);
    Unlist(bs, bs', j, i);
    assert Linked(m, bs, i);
    Rethread(m, m2, bs, bs', first, head, head, j, i, i);
  }

  /** Linking the free block i in front of the list. */
  lemma PushHead(m: Memory, bs: seq<Block>, bs': seq<Block>, first: int, head: int, i: nat)
    requires Laid(m, bs, first, head) && i < |bs| && !bs[i].listed && bs[i].free && FirstListed(bs, 0) > i
    requires bs' == bs[i := bs[i].(free := true, listed := true)]
    ensures Tagged(m, bs[i])
    ensures var m' := SetNext(m, bs[i].addr, head);
      Laid(m', bs', first, bs[i].addr) && PayloadsKept(m, m', bs)
  {
    SetNextKeeps(m, bs, first, i, head);
    EnlistHead(bs, bs', i);
    var m' := SetNext(m, bs[i].addr, head);
    forall k | 0 <= k < |bs'|
      ensures Tagged(m', bs'[k]) && Linked(m', bs', k)
    {
      assert Tagged(m', bs[k]) && Linked(m, bs, k) && SameNext(bs, bs', k);
    }
  }

  /** Linking the free block i behind the listed block j. */
  lemma PushAfter(m: Memory, m1: Memory, m2: Memory, bs: seq<Block>,
                  bs': seq<Block>, first: int, head: int, j: nat, i: nat)
    requires Laid(m, bs, first, head) && j < i < |bs| && bs[j].listed && bs[i].free && !bs[i].listed
    requires FirstListed(bs, j + 1) > i
    requires bs' == bs[i := bs[i].(free := true, listed := true)]
    requires Tagged(m, bs[i]) && Tagged(m, bs[j]) && m1 == SetNext(m, bs[i].addr, m.headers[bs[j].addr].next)
    requires bs[j].addr in m1.headers && m2 == SetNext(m1, bs[j].addr, bs[i].addr)
    ensures Laid(m2, bs', first, head) && PayloadsKept(m, m2, bs)
  {
    SetTwoKeeps(m, m1, m2, bs, first, i, m.headers[bs[j].addr].next, j, bs[i].addr);
    Enlist(bs, bs', j, i);
    assert Linked(m, bs, j);
    Rethread(m, m2, bs, bs', first, head, head, j, i, i);
  }

  /** Only the free flag of block i changes. */
  lemma Reflag(m: Memory, bs: seq<Block>, bs': seq<Block>, first: int, head: int, i: nat, free: bool)
    requires Laid(m, bs, first, head) && i < |bs| && bs' == bs[i := bs[i].(free := free)]
    ensures Tagged(m, bs[i])
    ensures var m' := PutHeader(m, bs[i].addr, m.headers[bs[i].addr].(isFree := free));
      Laid(m', bs', first, head) && PayloadsKept(m, m', bs) && Tagged(m', bs'[i])
  {
    assert Tagged(m, bs[i]);
    var m' := PutHeader(m, bs[i].addr, m.headers[bs[i].addr].(isFree := free));
    Reheader(m, bs, first, i, m.headers[bs[i].addr].(isFree := free));
    FirstIs(bs', 0, FirstListed(bs, 0));
    forall k | 0 <= k < |bs'|
      ensures Linked(m', bs', k)
    {
      assert Tagged(m', bs'[k]) && Linked(m, bs, k);
      FirstIs(bs', k + 1, FirstListed(bs, k + 1));
    }
  }

  /** Two neighbours outside the list become one block outside the list. */
  function Merged(bs: seq<Block>, i: nat): seq<Block>
    requires i + 1 < |bs|
  {
    bs[..i] + [bs[i].(size := bs[i].size + bs[i + 1].size + OVERHEAD)] + bs[i + 2..]
  }

  lemma {:induction false} MergedListing(bs: seq<Block>, i: nat, k: nat)
    requires i + 1 < |bs| && !bs[i].listed && !bs[i + 1].listed
    requires k <= |bs| && k != i + 1
    ensures NextListed(bs, k) == NextListed(Merged(bs, i), if k <= i then k else k - 1)
  {
    var bs' := Merged(bs, i);
    var k' := if k <= i then k else k - 1;
    var r := FirstListed(bs, k);
    assert forall x :: 0 <= x < i ==> bs'[x] == bs[x];
    assert forall x :: i < x < |bs'| ==> bs'[x] == bs[x + 1];
    FirstIs(bs', k', if r <= i then r else r - 1);
  }

  lemma MergeAgrees(m: Memory, m1: Memory, m2: Memory, m3: Memory, m4: Memory, m5: Memory, x: int,
                    xf: int, y: int, yf: int, h2: Header, h4: Header, h5: Header)
    requires x + HEADER <= xf && xf + FOOTER == y && y + HEADER <= yf
    requires m1 == PutFooter(m, xf, 0) && m2 == PutHeader(m1, x, h2) && m3 == PutFooter(m2, yf, x)
    requires m4 == PutHeader(m3, x, h4) && m5 == PutHeader(m4, y, h5)
    ensures AgreeOutside(m, m5, x, yf + FOOTER)
  {
    hide PutHeader, PutFooter, AgreeOutside;
    var hi := yf + FOOTER;
    FooterInside(m, xf, 0, x, hi);
    HeaderInside(m1, x, h2, x, hi);
    FooterInside(m2, yf, x, x, hi);
    HeaderInside(m3, x, h4, x, hi);
    HeaderInside(m4, y, h5, x, hi);
    AgreeChain([m, m1, m2, m3, m4, m5], x, hi);
  }

  lemma MergeWrites(m: Memory, m1: Memory, m2: Memory, m3: Memory, m4: Memory, m5: Memory, x: Block, y: Block)
    requires Tagged(m, x) && Tagged(m, y) && x.End() == y.addr
    requires m1 == PutFooter(m, x.FooterAddr(), 0)
    requires x.addr in m1.headers && m2 == PutHeader(m1, x.addr, m.headers[x.addr].(footer := y.FooterAddr()))
    requires m3 == PutFooter(m2, y.FooterAddr(), x.addr)
    requires y.addr in m3.headers
    requires m4 == PutHeader(m3, x.addr,
      Header(x.free, x.size + y.size + OVERHEAD, m.headers[y.addr].next, y.FooterAddr()))
    requires m5 == PutHeader(m4, y.addr, Header(false, 0, 0, 0))
    ensures Tagged(m5, x.(size := x.size + y.size + OVERHEAD))
    ensures AgreeOutside(m, m5, x.addr, y.End())
  {
    assert Tagged(m5, x.(size := x.size + y.size + OVERHEAD)) by {
      assert y.FooterAddr() in m4.footers && m4.footers[y.FooterAddr()] == x.addr;
    }
    MergeAgrees(m, m1, m2, m3, m4, m5, x.addr, x.FooterAddr(), y.addr, y.FooterAddr(),
                m.headers[x.addr].(footer := y.FooterAddr()), m4.headers[x.addr], Header(false, 0, 0, 0));
  }

  lemma MergeTagged(m: Memory, m': Memory, bs: seq<Block>, first: int, i: nat)
    requires Tiled(bs, first) && AllTagged(m, bs)
    requires i + 1 < |bs|
    requires AgreeOutside(m, m', bs[i].addr, bs[i + 1].End())
    requires Tagged(m', Merged(bs, i)[i])
    ensures Tiled(Merged(bs, i), first) && AllTagged(m', Merged(bs, i))
    ensures bs[i].free && bs[i + 1].free ==> PayloadsKept(m, m', bs)
    ensures forall j {:trigger bs[j]} :: 0 <= j < |bs| && j != i && j != i + 1 ==> SameHeader(m, m', bs[j].addr)
  {
    var bs' := Merged(bs, i);
    AgreeElsewhere(m, m', bs, first, i, i + 1);
    assert forall x :: 0 <= x < i ==> bs'[x] == bs[x];
    assert forall x :: i < x < |bs'| ==> bs'[x] == bs[x + 1];
    assert bs'[i].End() == bs[i + 1].End();
  }

  lemma MergeThreaded(m: Memory, m': Memory, bs: seq<Block>, i: nat, head: int)
    requires i + 1 < |bs| && !bs[i].listed && !bs[i + 1].listed
    requires AllTagged(m, bs) && AllTagged(m', Merged(bs, i))
    requires Threaded(m, bs, head)
    requires forall j {:trigger bs[j]} :: 0 <= j < |bs| && j != i && j != i + 1 ==> SameHeader(m, m', bs[j].addr)
    ensures Threaded(m', Merged(bs, i), head)
  {
    var bs' := Merged(bs, i);
    MergedListing(bs, i, 0);
    forall j | 0 <= j < |bs'|
      ensures Linked(m', bs', j)
    {
      assert Tagged(m', bs'[j]);
      if j != i {
        var o := if j < i then j else j + 1;
        assert bs'[j] == bs[o] && Linked(m, bs, o);
        MergedListing(bs, i, o + 1);
      }
    }
  }

  /** Block i gives up all but its first `size` payload bytes to a new free block behind it,
      which is not on the list yet. */
  function Split(bs: seq<Block>, i: nat, size: nat): seq<Block>
    requires i < |bs| && bs[i].size >= size + OVERHEAD
  {
    bs[..i]
    + [bs[i].(size := size),
       Block(bs[i].addr + OVERHEAD + size, bs[i].size - size - OVERHEAD, true, false)]
    + bs[i + 1..]
  }

  lemma SplitListing(bs: seq<Block>, i: nat, size: nat, k: nat)
    requires i < |bs| && bs[i].size >= size + OVERHEAD && k <= |bs|
    ensures NextListed(Split(bs, i, size), if k <= i then k else k + 1) == NextListed(bs, k)
    ensures k == i + 1 ==> NextListed(Split(bs, i, size), k) == NextListed(bs, k)
  {
    var bs' := Split(bs, i, size);
    assert forall x :: 0 <= x < i ==> bs'[x] == bs[x];
    assert forall x :: i + 1 < x < |bs'| ==> bs'[x] == bs[x - 1];
    var r := FirstListed(bs, k);
    FirstIs(bs', if k <= i then k else k + 1, if r <= i then r else r + 1);
    if k == i + 1 { FirstIs(bs', k, r + 1); }
  }

  /** All writes were inside the old block i, and the two new blocks are in order. */
  lemma SplitTagged(m: Memory, m': Memory, bs: seq<Block>, bs': seq<Block>, first: int, i: nat, size: nat)
    requires Tiled(bs, first) && AllTagged(m, bs)
    requires i < |bs| && bs[i].size >= size + OVERHEAD && bs' == Split(bs, i, size)
    requires AgreeOutside(m, m', bs[i].addr, bs[i].End())
    requires Tagged(m', bs'[i]) && Tagged(m', bs'[i + 1])
    ensures Tiled(bs', first) && AllTagged(m', bs')
    ensures forall j {:trigger bs[j]} :: 0 <= j < |bs| && j != i ==>
      SameHeader(m, m', bs[j].addr) && SameBytes(m, m', bs[j].Payload(), bs[j].FooterAddr())
  {
    AgreeElsewhere(m, m', bs, first, i, i);
    assert forall x :: 0 <= x < i ==> bs'[x] == bs[x];
    assert forall x :: i + 1 < x < |bs'| ==> bs'[x] == bs[x - 1];
    assert bs'[i + 1].End() == bs[i].End();
  }

  lemma SplitThreaded(m: Memory, m': Memory, bs: seq<Block>, bs': seq<Block>, head: int, i: nat, size: nat)
    requires Threaded(m, bs, head) && AllTagged(m', bs')
    requires i < |bs| && bs[i].size >= size + OVERHEAD && bs' == Split(bs, i, size)
    requires forall j {:trigger bs[j]} :: 0 <= j < |bs| && j != i ==> SameHeader(m, m', bs[j].addr)
    requires bs[i].addr in m.headers && bs[i].addr in m'.headers
    requires m'.headers[bs[i].addr].next == m.headers[bs[i].addr].next
    ensures Threaded(m', bs', head)
  {
    SplitListing(bs, i, size, 0);
    forall k | 0 <= k < |bs'|
      ensures Linked(m', bs', k)
    {
      assert Tagged(m', bs'[k]);
      if k != i + 1 {
        var o := if k <= i then k else k - 1;
        assert Linked(m, bs, o) && bs'[k].addr == bs[o].addr;
        SplitListing(bs, i, size, o + 1);
      }
    }
  }

  /** A block outside the list is added behind the last one. */
  lemma AppendLaid(m: Memory, m': Memory, bs: seq<Block>, b: Block, first: int, head: int)
    requires Laid(m, bs, first, head)
    requires b.addr == bs[|bs| - 1].End() && !b.listed && Tagged(m', b)
    requires AgreeOutside(m, m', b.addr, b.End())
    ensures Laid(m', bs + [b], first, head)
    ensures PayloadsKept(m, m', bs)
  {
    var bs' := bs + [b];
    assert Tiled(bs', first);
    FirstIs(bs', 0, if FirstListed(bs, 0) == |bs| then |bs'| else FirstListed(bs, 0));
    forall k | 0 <= k < |bs'|
      ensures Tagged(m', bs'[k]) && Linked(m', bs', k)
    {
      if k < |bs| {
        assert Tagged(m, bs[k]) && Linked(m, bs, k);
        TiledBounds(bs, first, k);
        var r := FirstListed(bs, k + 1);
        FirstIs(bs', k + 1, if r == |bs| then |bs'| else r);
      }
    }
    forall k | 0 <= k < |bs|
      ensures SameBytes(m, m', bs[k].Payload(), bs[k].FooterAddr())
    {
      TiledBounds(bs, first, k);
    }
  }

  /** On the list, block i+1 takes the place of block i; j is the listed block before i. */
  lemma Swap(bs: seq<Block>, bs': seq<Block>, j: nat, i: nat)
    requires j < i && i + 1 < |bs| && bs[j].listed && FirstListed(bs, j + 1) == i
    requires bs[i + 1].free && !bs[i + 1].listed
    requires bs' == bs[i := bs[i].(listed := false)][i + 1 := bs[i + 1].(listed := true)]
    ensures NextListed(bs', j + 1) == bs[i + 1].addr
    ensures NextListed(bs', i + 2) == NextListed(bs, i + 1)
    ensures NextListed(bs', 0) == NextListed(bs, 0)
    ensures forall k :: 0 <= k < |bs| && k != j && k != i ==> SameNext(bs, bs', k)
  {
    var mid := bs[i := bs[i].(listed := false)];
    Unlist(bs, mid, j, i);
    FirstIs(mid, j + 1, FirstListed(bs, i + 1));
    Enlist(mid, bs', j, i + 1);
    forall k | 0 <= k < |bs| && k != j && k != i
      ensures SameNext(bs, bs', k)
    {
      assert SameNext(bs, mid, k) && SameNext(mid, bs', k);
    }
  }

  lemma SwapHead(bs: seq<Block>, bs': seq<Block>, i: nat)
    requires i + 1 < |bs| && FirstListed(bs, 0) == i
    requires bs[i + 1].free && !bs[i + 1].listed
    requires bs' == bs[i := bs[i].(listed := false)][i + 1 := bs[i + 1].(listed := true)]
    ensures NextListed(bs', 0) == bs[i + 1].addr
    ensures NextListed(bs', i + 2) == NextListed(bs, i + 1)
    ensures forall k :: 0 <= k < |bs| && k != i ==> SameNext(bs, bs', k)
  {
    var mid := bs[i := bs[i].(listed := false)];
    UnlistHead(bs, mid, i);
    FirstIs(mid, 0, FirstListed(bs, i + 1));
    EnlistHead(mid, bs', i + 1);
    forall k | 0 <= k < |bs| && k != i
      ensures SameNext(bs, bs', k)
    {
      assert SameNext(bs, mid, k) && SameNext(mid, bs', k);
    }
  }

  lemma SetThreeKeeps(m: Memory, m1: Memory, m2: Memory, m3: Memory, bs: seq<Block>,
                      first: int, i: nat, ni: int, j: nat, nj: int, l: nat, nl: int)
    requires Tiled(bs, first) && AllTagged(m, bs) && i < |bs| && j < |bs| && l < |bs| && i != j && j != l && i != l
    requires bs[i].addr in m.headers && m1 == SetNext(m, bs[i].addr, ni)
    requires bs[j].addr in m1.headers && m2 == SetNext(m1, bs[j].addr, nj)
    requires bs[l].addr in m2.headers && m3 == SetNext(m2, bs[l].addr, nl)
    ensures AllTagged(m3, bs) && PayloadsKept(m, m3, bs)
    ensures bs[i].addr in m3.headers && m3.headers[bs[i].addr].next == ni
    ensures bs[j].addr in m3.headers && m3.headers[bs[j].addr].next == nj
    ensures forall k {:trigger bs[k]} :: 0 <= k < |bs| && k != i && k != j && k != l ==> SameHeader(m, m3, bs[k].addr)
  {
    SetTwoKeeps(m, m1, m2, bs, first, i, ni, j, nj);
    SetNextKeeps(m2, bs, first, l, nl);
  }

  /** The list moves from block i to the block i+1 split off it; j comes before i on the list. */
  lemma ReplaceAfter(m: Memory, m1: Memory, m2: Memory, m3: Memory, bs: seq<Block>,
                     bs': seq<Block>, first: int, head: int, j: nat, i: nat)
    requires Laid(m, bs, first, head) && j < i && i + 1 < |bs| && bs[j].listed && FirstListed(bs, j + 1) == i
    requires bs[i + 1].free && !bs[i + 1].listed
    requires bs' == bs[i := bs[i].(listed := false)][i + 1 := bs[i + 1].(listed := true)]
    requires Tagged(m, bs[i]) && Tagged(m, bs[i + 1])
    requires m1 == SetNext(m, bs[i + 1].addr, m.headers[bs[i].addr].next)
    requires bs[j].addr in m1.headers && m2 == SetNext(m1, bs[j].addr, bs[i + 1].addr)
    requires bs[i].addr in m2.headers && m3 == SetNext(m2, bs[i].addr, 0)
    ensures Laid(m3, bs', first, head) && PayloadsKept(m, m3, bs)
  {
    SetThreeKeeps(m, m1, m2, m3, bs, first, i + 1, m.headers[bs[i].addr].next, j, bs[i + 1].addr, i, 0);
    Swap(bs, bs', j, i);
    assert Linked(m, bs, i) && Tagged(m3, bs[i]);
    Rethread(m, m3, bs, bs', first, head, head, j, i, i + 1);
  }

  lemma ReplaceHead(m: Memory, m1: Memory, m2: Memory, bs: seq<Block>, bs': seq<Block>, first: int, head: int, i: nat)
    requires Laid(m, bs, first, head) && i + 1 < |bs| && FirstListed(bs, 0) == i
    requires bs[i + 1].free && !bs[i + 1].listed
    requires bs' == bs[i := bs[i].(listed := false)][i + 1 := bs[i + 1].(listed := true)]
    requires Tagged(m, bs[i]) && Tagged(m, bs[i + 1])
    requires m1 == SetNext(m, bs[i + 1].addr, m.headers[bs[i].addr].next)
    requires bs[i].addr in m1.headers && m2 == SetNext(m1, bs[i].addr, 0)
    ensures Laid(m2, bs', first, bs[i + 1].addr) && PayloadsKept(m, m2, bs)
  {
    SetTwoKeeps(m, m1, m2, bs, first, i + 1, m.headers[bs[i].addr].next, i, 0);
    SwapHead(bs, bs', i);
    assert Linked(m, bs, i) && Tagged(m2, bs[i]);
    Rethread(m, m2, bs, bs', first, head, bs[i + 1].addr, i, i, i + 1);
  }

  lemma SplitAgrees(m: Memory, m1: Memory, m2: Memory, m3: Memory, m4: Memory, m5: Memory, m6: Memory,
                    a: int, l: int, f: int, h1: Header, h4: Header, h5: Header, h6: Header)
    requires a + OVERHEAD <= l && l + HEADER <= f
    requires m1 == PutHeader(m, l, h1) && m2 == PutFooter(m1, f, l) && m3 == PutFooter(m2, l - FOOTER, a)
    requires m4 == PutHeader(m3, a, h4) && m5 == PutHeader(m4, l, h5) && m6 == PutHeader(m5, a, h6)
    ensures AgreeOutside(m, m6, a, f + FOOTER)
  {
    hide PutHeader, PutFooter, AgreeOutside;
    var hi := f + FOOTER;
    HeaderInside(m, l, h1, a, hi);
    FooterInside(m1, f, l, a, hi);
    FooterInside(m2, l - FOOTER, a, a, hi);
    HeaderInside(m3, a, h4, a, hi);
    HeaderInside(m4, l, h5, a, hi);
    HeaderInside(m5, a, h6, a, hi);
    AgreeChain([m, m1, m2, m3, m4, m5, m6], a, hi);
  }

  /** The cells that the writes of a split leave behind. */
  lemma SplitCells(m1: Memory, m2: Memory, m3: Memory, m4: Memory, m5: Memory, m6: Memory,
                   a: int, l: int, f: int, h4: Header, h5: Header, h6: Header)
    requires a + OVERHEAD <= l && l + HEADER <= f
    requires m2 == PutFooter(m1, f, l) && m3 == PutFooter(m2, l - FOOTER, a)
    requires m4 == PutHeader(m3, a, h4) && m5 == PutHeader(m4, l, h5) && m6 == PutHeader(m5, a, h6)
    ensures a in m6.headers && m6.headers[a] == h6 && l in m6.headers && m6.headers[l] == h5
    ensures f in m6.footers && m6.footers[f] == l && l - FOOTER in m6.footers && m6.footers[l - FOOTER] == a
  {
    assert f in m4.footers && m4.footers[f] == l;
    assert l - FOOTER in m4.footers && m4.footers[l - FOOTER] == a;
  }

  lemma SplitLaid(m: Memory, m1: Memory, m2: Memory, m3: Memory, m4: Memory, m5: Memory, m6: Memory,
                  a: int, l: int, f: int, h1: Header, h4: Header, h5: Header, h6: Header,
                  bs: seq<Block>, bs': seq<Block>, first: int, head: int, i: nat, size: nat)
    requires m1 == PutHeader(m, l, h1) && m2 == PutFooter(m1, f, l) && m3 == PutFooter(m2, l - FOOTER, a)
    requires m4 == PutHeader(m3, a, h4) && m5 == PutHeader(m4, l, h5) && m6 == PutHeader(m5, a, h6)
    requires Laid(m, bs, first, head) && i < |bs| && bs[i].size > size + OVERHEAD && bs' == Split(bs, i, size)
    requires a == bs[i].addr && l == bs'[i + 1].addr && f == bs[i].FooterAddr() && a in m.headers
    requires h6 == Header(bs[i].free, size, m.headers[a].next, l - FOOTER)
    requires h5 == Header(true, bs'[i + 1].size, m.headers[a].next, f)
    ensures Laid(m6, bs', first, head)
    ensures forall j {:trigger bs[j]} :: 0 <= j < |bs| && j != i ==>
      SameBytes(m, m6, bs[j].Payload(), bs[j].FooterAddr())
  {
    hide PutHeader, PutFooter, AgreeOutside, Tiled, AllTagged, Threaded, SameBytes, SameHeader;
    SplitAgrees(m, m1, m2, m3, m4, m5, m6, a, l, f, h1, h4, h5, h6);
    SplitCells(m1, m2, m3, m4, m5, m6, a, l, f, h4, h5, h6);
    assert Tagged(m6, bs'[i]) && Tagged(m6, bs'[i + 1]);
    SplitTagged(m, m6, bs, bs', first, i, size);
    SplitThreaded(m, m6, bs, bs', head, i, size);
  }

  /** The block layout after block i has been handed out for `size` bytes. */
  function Occupied(bs: seq<Block>, i: nat, size: nat): seq<Block>
    requires i < |bs| && bs[i].size >= size
  {
    if bs[i].size <= size + OVERHEAD then bs[i := bs[i].(free := false, listed := false)]
    else bs[..i] + [Block(bs[i].addr, size, false, false),
                    Block(bs[i].addr + OVERHEAD + size, bs[i].size - size - OVERHEAD, true, true)] + bs[i + 1..]
  }

  lemma SetNextLaid(m: Memory, bs: seq<Block>, first: int, head: int, i: nat, next: int)
    requires Laid(m, bs, first, head) && i < |bs| && !bs[i].listed
    ensures Tagged(m, bs[i])
    ensures var m' := SetNext(m, bs[i].addr, next);
      Laid(m', bs, first, head) && PayloadsKept(m, m', bs)
  {
    SetNextKeeps(m, bs, first, i, next);
    var m' := SetNext(m, bs[i].addr, next);
    forall k | 0 <= k < |bs|
      ensures Linked(m', bs, k)
    {
      assert Tagged(m', bs[k]) && Linked(m, bs, k);
    }
  }

  lemma SplitPayloads(m0: Memory, m1: Memory, m2: Memory, m3: Memory,
                      bs: seq<Block>, mid: seq<Block>, i: nat, size: nat)
    requires i < |bs| && bs[i].free && bs[i].size >= size + OVERHEAD
    requires mid == Split(bs[i := bs[i].(free := false)], i, size)
    requires PayloadsKept(m0, m1, bs)
    requires forall j {:trigger bs[j]} :: 0 <= j < |bs| && j != i ==>
      SameBytes(m1, m2, bs[j].Payload(), bs[j].FooterAddr())
    requires PayloadsKept(m2, m3, mid)
    ensures PayloadsKept(m0, m3, bs)
  {
    forall j | 0 <= j < |bs| && !bs[j].free
      ensures SameBytes(m0, m3, bs[j].Payload(), bs[j].FooterAddr())
    {
      assert bs[j] == mid[if j < i then j else j + 1];
    }
  }
}
