/** vmm_new, vmm_copy and vmm_free: cloning an address space and giving it back.

    Both walks over the lower half point the scratch windows at the tables of the space they
    visit; the copying walk's callback points the same windows at the other space's tables.
  */
module VmmCopy {
  import opened Pte
  import opened PageTables
  import opened Vmm

  ghost function Frames(s: Space): set<FrameNo> { TableFrames(s) + LeafFrames(s) }

  /** Every frame of the space is used in one place only. */
  ghost predicate Separate(s: Space) {
    && TableFrames(s) !! LeafFrames(s)
    && forall q, q' :: q in s.leaves && q' in s.leaves && s.leaves[q].frame == s.leaves[q'].frame ==> q == q'
  }

  /** The frames taken since the supply was `free0` are exactly the frames of `dst`. */
  ghost predicate Accounts(free0: set<FrameNo>, free: set<FrameNo>, dst: Space) {
    free <= free0 && Frames(dst) == free0 - free
  }

  ghost predicate SourceOk(phys: Phys, free0: set<FrameNo>, src: Space) {
    Rep(phys, src) && Frames(src) !! free0 && Frames(src) <= phys.Keys
  }

  ghost predicate DestOk(phys: Phys, free0: set<FrameNo>, free: set<FrameNo>, dst: Space) {
    Rep(phys, dst) && Separate(dst) && Accounts(free0, free, dst)
  }

  /** Page q of the copy: present exactly when the source's is, with the same flags and the
      same contents. */
  ghost predicate Matches(phys: Phys, src: Space, dst: Space, q: Path) {
    && (q in src.leaves <==> q in dst.leaves)
    && (q in src.leaves ==>
          && EntryFlags(dst.leaves[q]) == EntryFlags(src.leaves[q])
          && src.leaves[q].frame in phys && dst.leaves[q].frame in phys
          && phys[dst.leaves[q].frame] == phys[src.leaves[q].frame])
  }

  /** The tables that a copy needs: the root, and those that lead to a page. */
  ghost function NeededTables(src: Space): set<Path> {
    set r | r in src.tables && (r == [] || Leads(src, r))
  }

  ghost predicate Leads(s: Space, r: Path) {
    exists q :: q in s.leaves && OnWay(r, q)
  }

  /** The number of frames that a copy takes. */
  ghost function Needs(src: Space): nat { |NeededTables(src)| + |src.leaves| }

  /** A copy under way: nothing in it that the source does not call for. */
  ghost predicate Partial(src: Space, dst: Space) {
    dst.tables.Keys <= NeededTables(src) && dst.leaves.Keys <= src.leaves.Keys
  }

  ghost function Image(m: map<Path, FrameNo>): set<FrameNo> { set p | p in m :: m[p] }

  lemma ImageWithout(m: map<Path, FrameNo>, p: Path)
    requires p in m && forall r :: r in m && m[r] == m[p] ==> r == p
    ensures Image(m) == Image(m - {p}) + {m[p]} && m[p] !in Image(m - {p})
  {
    forall f | f in Image(m) ensures f in Image(m - {p}) + {m[p]} {
      var r :| r in m && m[r] == f;
      if r != p { assert r in m - {p}; }
    }
    forall f | f in Image(m - {p}) ensures f in Image(m) && f != m[p] {
      var r :| r in m - {p} && (m - {p})[r] == f;
      assert r in m;
    }
    assert m[p] in Image(m);
  }

  lemma {:induction false} InjectiveImage(m: map<Path, FrameNo>)
    requires forall p, p' :: p in m && p' in m && m[p] == m[p'] ==> p == p'
    ensures |Image(m)| == |m.Keys|
    decreases |m.Keys|
  {
    hide Image;
    if m.Keys != {} {
      var p :| p in m;
      assert (m - {p}).Keys == m.Keys - {p};
      InjectiveImage(m - {p});
      ImageWithout(m, p);
    } else {
      assert Image(map[]) == {} by { ImageNone(); }
      assert m == map[];
    }
  }

  lemma ImageNone()
    ensures Image(map[]) == {}
  {
  }

  lemma LeafImage(s: Space)
    requires Separate(s)
    ensures |LeafFrames(s)| == |s.leaves.Keys|
  {
    var leaves := map q | q in s.leaves :: s.leaves[q].frame;
    InjectiveImage(leaves);
    assert leaves.Keys == s.leaves.Keys;
    assert LeafFrames(s) == Image(leaves);
  }

  /** Every table and every page of the space has one frame of its own, the rest is still free. */
  lemma SupplyCount(free0: set<FrameNo>, free: set<FrameNo>, s: Space)
    requires Shape(s) && Separate(s) && Accounts(free0, free, s)
    ensures |free0| == |s.tables.Keys| + |s.leaves.Keys| + |free|
    ensures |Frames(s)| == |s.tables.Keys| + |s.leaves.Keys|
  {
    hide LowerPath, Hung;
    InjectiveImage(s.tables);
    LeafImage(s);
    assert TableFrames(s) == Image(s.tables);
    assert |Frames(s)| == |TableFrames(s)| + |LeafFrames(s)|;
    assert free0 == Frames(s) + free;
  }

  lemma Fewer<T>(a: set<T>, b: set<T>)
    requires a <= b
    ensures |a| <= |b| && (a != b ==> |a| < |b|)
  {
    assert b == a + (b - a);
  }

  lemma PageTableNeeded(src: Space, q: Path)
    requires Shape(src) && q in src.leaves
    ensures q[..3] in NeededTables(src)
  {
    LeafTables(src, q, 3);
    assert OnWay(q[..3], q);
  }

  /** The supply `free0` is used up, save for the frame meant for page q, and page q is missing. */
  lemma Starved(free0: set<FrameNo>, free: set<FrameNo>, src: Space, dst: Space, q: Path)
    requires Shape(src) && Shape(dst) && Separate(dst) && Accounts(free0, free, dst) && Partial(src, dst)
    requires q in src.leaves && q !in dst.leaves
    requires free == {} || (|free| == 1 && q[..3] !in dst.tables)
    ensures |free0| < Needs(src)
  {
    hide NeededTables, Shape, Separate, Accounts;
    SupplyCount(free0, free, dst);
    Fewer(dst.leaves.Keys, src.leaves.Keys);
    Fewer(dst.tables.Keys, NeededTables(src));
    PageTableNeeded(src, q);
  }

  lemma PartialStep(src: Space, dst: Space, dst': Space, q: Path)
    requires Shape(src) && Partial(src, dst) && q in src.leaves && Along(dst, dst', q)
    requires dst'.leaves.Keys <= dst.leaves.Keys + {q}
    ensures Partial(src, dst')
  {
    forall r | r in dst'.tables ensures r in NeededTables(src) {
      if r !in dst.tables {
        LeafTables(src, q, |r|);
      }
    }
  }

  /** A copy with all the pages of the source has taken exactly the frames it needs. */
  lemma NeedsExactly(free0: set<FrameNo>, free: set<FrameNo>, src: Space, dst: Space)
    requires Shape(dst) && Separate(dst) && Accounts(free0, free, dst) && Partial(src, dst)
    requires dst.leaves.Keys == src.leaves.Keys
    ensures |free0| == |free| + Needs(src) && |Frames(dst)| == Needs(src)
  {
    hide Separate, Accounts, LowerPath, Hung;
    SupplyCount(free0, free, dst);
    forall r | r in NeededTables(src) ensures r in dst.tables {
      if r != [] {
        var q :| q in src.leaves && OnWay(r, q);
        assert q in dst.leaves;
        LeafTables(dst, q, |r|);
      }
    }
    assert dst.tables.Keys == NeededTables(src);
  }

  lemma SourceKept(phys: Phys, phys': Phys, free0: set<FrameNo>, src: Space, changed: set<FrameNo>)
    requires SourceOk(phys, free0, src) && OnlyChanged(phys, phys', changed) && changed <= free0
    ensures SourceOk(phys', free0, src)
    ensures forall f :: f in Frames(src) ==> phys'[f] == phys[f]
  {
    RepFrame(phys, phys', src);
  }

  lemma LeafPresent(phys: Phys, s: Space, q: Path)
    requires Rep(phys, s) && q in s.leaves
    ensures IsPresent(s.leaves[q]) && s.leaves[q].frame in LeafFrames(s)
  {
    LeafTables(s, q, 3);
    assert q[..3] + [q[3]] == q && LowerIndex(3, q[3]);
    assert LeafSlot(phys, s, q[..3], q[3]);
  }

  /** The frames of the space with one more page. */
  lemma FramesWithLeaf(s: Space, s': Space, q: Path, e: Word)
    requires q !in s.leaves && s'.leaves == s.leaves[q := e]
    ensures LeafFrames(s') == LeafFrames(s) + {e.frame}
  {
    forall f | f in LeafFrames(s') ensures f in LeafFrames(s) + {e.frame} {
      var r :| r in s'.leaves && s'.leaves[r].frame == f;
      if r != q { assert r in s.leaves; }
    }
    forall f | f in LeafFrames(s) + {e.frame} ensures f in LeafFrames(s') {
      if f in LeafFrames(s) {
        var r :| r in s.leaves && s.leaves[r].frame == f;
        assert r in s'.leaves && s'.leaves[r] == s.leaves[r];
      } else {
        assert q in s'.leaves;
      }
    }
  }

  /** Adding page q with the frame f that was taken, and tables taken from `free1`. */
  lemma MappedDest(free0: set<FrameNo>, free: set<FrameNo>, f: FrameNo,
                   free2: set<FrameNo>, dst: Space, dst': Space, q: Path, e: Word)
    requires Separate(dst) && Accounts(free0, free, dst) && f in free && free2 <= free - {f}
    requires TableFrames(dst') == TableFrames(dst) + (free - {f} - free2)
    requires q !in dst.leaves && dst'.leaves == dst.leaves[q := e] && e.frame == f
    ensures Separate(dst') && Accounts(free0, free2, dst')
  {
    FramesWithLeaf(dst, dst', q, e);
    forall r, r' | r in dst'.leaves && r' in dst'.leaves && dst'.leaves[r].frame == dst'.leaves[r'].frame
      ensures r == r'
    {
      if r != q { assert dst.leaves[r].frame in LeafFrames(dst); }
      if r' != q { assert dst.leaves[r'].frame in LeafFrames(dst); }
    }
  }

  /** The same when the mapping failed and the page frame f goes back. */
  lemma UnmappedDest(free0: set<FrameNo>, free: set<FrameNo>, f: FrameNo, free2: set<FrameNo>, dst: Space, dst': Space)
    requires Separate(dst) && Accounts(free0, free, dst) && f in free && free2 <= free - {f}
    requires TableFrames(dst') == TableFrames(dst) + (free - {f} - free2) && dst'.leaves == dst.leaves
    ensures Separate(dst') && Accounts(free0, free2 + {f}, dst')
  {
    assert LeafFrames(dst') == LeafFrames(dst);
  }

  /** A frame of the supply has been filled with a page of the source. */
  lemma PageFilled(phys: Phys, phys1: Phys, free0: set<FrameNo>, free: set<FrameNo>,
                   f: FrameNo, src: Space, dst: Space, from: FrameNo)
    requires SourceOk(phys, free0, src) && DestOk(phys, free0, free, dst) && f in free && f in phys
    requires from in Frames(src) && phys1 == phys[f := phys[from]]
    ensures SourceOk(phys1, free0, src) && Holds(phys1, free - {f}, dst)
    ensures OnlyChanged(phys, phys1, {f}) && phys1[f] == phys1[from]
  {
    SourceKept(phys, phys1, free0, src, {f});
    RepFrame(phys, phys1, dst);
  }

  /** Where the copy stands after the callback for page q. */
  lemma MappingEnds(phys: Phys, free0: set<FrameNo>, free: set<FrameNo>,
                    src: Space, dst: Space, dst': Space, q: Path, ok: bool)
    requires SourceOk(phys, free0, src) && DestOk(phys, free0, free, dst') && Partial(src, dst) && Along(dst, dst', q)
    requires q in src.leaves && dst'.leaves.Keys <= dst.leaves.Keys + {q}
    requires !ok ==> q !in dst'.leaves && (free == {} || (|free| == 1 && q[..3] !in dst'.tables))
    ensures Partial(src, dst') && (!ok ==> |free0| < Needs(src))
  {
    hide Slots, UserPaths, InMemory;
    PartialStep(src, dst, dst', q);
    if !ok { Starved(free0, free, src, dst', q); }
  }

  /** The filled frame has been mapped at page q of the copy. */
  lemma PageMapped(phys0: Phys, phys1: Phys, phys2: Phys, free0: set<FrameNo>, free: set<FrameNo>,
                   f: FrameNo, free2: set<FrameNo>, src: Space, dst: Space, dst': Space, q: Path)
    requires SourceOk(phys1, free0, src) && DestOk(phys0, free0, free, dst) && Partial(src, dst) && f in free
    requires f in phys1
    requires OnlyChanged(phys1, phys2, TableFrames(dst) + (free - {f})) && Rep(phys2, dst')
    requires free2 <= free - {f} && TableFrames(dst') == TableFrames(dst) + (free - {f} - free2) && Along(dst, dst', q)
    requires q in src.leaves && q !in dst.leaves && dst'.leaves == dst.leaves[q := Pack(f, EntryFlags(src.leaves[q]))]
    requires phys1[f] == phys1[src.leaves[q].frame]
    ensures SourceOk(phys2, free0, src) && DestOk(phys2, free0, free2, dst') && Partial(src, dst')
    ensures Matches(phys2, src, dst', q)
  {
    hide Rep, Partial, Along;
    LeafPresent(phys1, src, q);
    MappedDest(free0, free, f, free2, dst, dst', q, Pack(f, EntryFlags(src.leaves[q])));
    SourceKept(phys1, phys2, free0, src, TableFrames(dst) + (free - {f}));
    MappingEnds(phys2, free0, free2, src, dst, dst', q, true);
  }

  /** The mapping has failed for lack of frames, and the filled frame goes back. */
  lemma PageUnmapped(phys0: Phys, phys1: Phys, phys2: Phys, free0: set<FrameNo>,
                     free: set<FrameNo>, f: FrameNo, src: Space, dst: Space, dst': Space, q: Path)
    requires SourceOk(phys1, free0, src) && DestOk(phys0, free0, free, dst) && Partial(src, dst) && f in free
    requires OnlyChanged(phys1, phys2, TableFrames(dst) + (free - {f})) && Rep(phys2, dst')
    requires TableFrames(dst') == TableFrames(dst) + (free - {f}) && dst'.leaves == dst.leaves
    requires q in src.leaves && q !in dst.leaves && Along(dst, dst', q) && q[..3] !in dst'.tables
    ensures SourceOk(phys2, free0, src) && DestOk(phys2, free0, {f}, dst') && Partial(src, dst')
    ensures |free0| < Needs(src)
  {
    hide Rep, Partial, Along, Needs;
    assert free - {f} - {} == free - {f};
    UnmappedDest(free0, free, f, {}, dst, dst');
    assert {} + {f} == {f};
    SourceKept(phys1, phys2, free0, src, TableFrames(dst) + (free - {f}));
    MappingEnds(phys2, free0, {f}, src, dst, dst', q, false);
  }

  lemma SourceLeaf(phys: Phys, free0: set<FrameNo>, src: Space, q: Path)
    requires SourceOk(phys, free0, src) && q in src.leaves
    ensures IsPresent(src.leaves[q]) && src.leaves[q].frame in Frames(src) && src.leaves[q].frame in phys && |q| == 4
  {
    LeafPresent(phys, src, q);
  }

  /** Filling a free frame leaves the root of the copy alone. */
  lemma UpperFilled(phys: Phys, free0: set<FrameNo>, free: set<FrameNo>, dst: Space)
    requires DestOk(phys, free0, free, dst) && [] in dst.tables
    ensures UpperKept(phys, phys, dst.tables[[]])
    ensures forall f, page: Page {:trigger phys[f := page]} :: f in free ==>
      UpperKept(phys, phys[f := page], dst.tables[[]])
  {
    TableFrameIn(dst, []);
  }

  lemma ChangedVia(phys: Phys, phys1: Phys, phys2: Phys, a: set<FrameNo>, b: set<FrameNo>, c: set<FrameNo>)
    requires OnlyChanged(phys, phys1, a) && OnlyChanged(phys1, phys2, b) && a <= c && b <= c
    ensures OnlyChanged(phys, phys2, c)
  {
  }

  method CopyMapping(m: Machine, dstRoot: FrameNo, virt: nat, entry: Word,
                     ghost src: Space, ghost dst: Space, ghost free0: set<FrameNo>)
    returns (ok: bool, ghost dst': Space)
    requires m.Valid() && SourceOk(m.phys, free0, src) && DestOk(m.phys, free0, m.free, dst)
    requires [] in dst.tables && dst.tables[[]] == dstRoot && virt < LOWER_END
    requires PathOf(virt) in src.leaves && entry == src.leaves[PathOf(virt)] && PathOf(virt) !in dst.leaves
    requires Partial(src, dst)
    modifies m
    ensures m.Valid() && SourceOk(m.phys, free0, src) && DestOk(m.phys, free0, m.free, dst')
    ensures [] in dst'.tables && dst'.tables[[]] == dstRoot
    ensures OnlyChanged(old(m.phys), m.phys, TableFrames(dst) + old(m.free))
    ensures Partial(src, dst') && UpperKept(old(m.phys), m.phys, dstRoot)
    ensures !ok ==> dst'.leaves == dst.leaves && |free0| < Needs(src)
    ensures ok ==> Matches(m.phys, src, dst', PathOf(virt)) && dst'.leaves - {PathOf(virt)} == dst.leaves
  {
    hide Rep, PathOf, OnlyChanged, TableFrames, Matches, FlagsToMappingRequest, User, Present, Along, Partial, Needs;
    hide SourceOk, DestOk, UpperKept;
    ghost var phys0, free, q := m.phys, m.free, PathOf(virt);
    SourceLeaf(m.phys, free0, src, q);
    ok, dst' := false, dst;
    ChangedNothing(m.phys, TableFrames(dst) + free);
    UpperFilled(phys0, free0, free, dst);
    var f := m.AllocFrame();
    if f == 0 {
      assert m.free == free;
      AlongNothing(dst, q);
      MappingEnds(m.phys, free0, m.free, src, dst, dst, q, false);
      return;
    }
    m.ScratchMap(ScratchA, entry.frame);
    m.ScratchMap(ScratchB, f);
    m.CopyPage(ScratchB, ScratchA);
    ghost var phys1 := m.phys;
    PageFilled(phys0, phys1, free0, free, f, src, dst, entry.frame);
    RequestKeepsUser(EntryFlags(entry));
    RootShown(phys1, dst);
    ok, dst' := m.MapLeaf(dstRoot, virt, f, EntryFlags(entry), FlagsToMappingRequest(EntryFlags(entry)), dst);
    RootShown(m.phys, dst');
    UpperTrans(phys0, phys1, m.phys, dstRoot);
    ChangedVia(phys0, phys1, m.phys, {f}, TableFrames(dst) + (free - {f}), TableFrames(dst) + free);
    if ok {
      PageMapped(phys0, phys1, m.phys, free0, free, f, m.free, src, dst, dst', q);
    } else {
      PageUnmapped(phys0, phys1, m.phys, free0, free, f, src, dst, dst', q);
      m.FreeFrame(f);
      assert m.free == {f};
    }
  }

  /** Page q lies below one of the slots lo..hi-1 of table p. */
  ghost predicate Under(p: Path, lo: nat, hi: nat, q: Path) {
    |p| < |q| == 4 && q[..|p|] == p && lo <= q[|p|] < hi
  }

  /** The copy has the same entry for page q, or no entry, in both. */
  ghost predicate SameLeaf(dst: Space, dst': Space, q: Path) {
    (q in dst.leaves <==> q in dst'.leaves) && (q in dst.leaves ==> dst'.leaves[q] == dst.leaves[q])
  }

  /** Outside these slots the copy is as it was; pages are only added. */
  ghost predicate Elsewhere(dst: Space, dst': Space, p: Path, lo: nat, hi: nat) {
    forall q :: !Under(p, lo, hi, q) ==> SameLeaf(dst, dst', q)
  }

  ghost predicate Copied(phys: Phys, src: Space, dst: Space, p: Path, lo: nat, hi: nat) {
    forall q :: Under(p, lo, hi, q) ==> Matches(phys, src, dst, q)
  }

  /** No page of the copy lies below these slots yet. */
  ghost predicate Vacant(dst: Space, p: Path, lo: nat, hi: nat) {
    forall q :: Under(p, lo, hi, q) ==> q !in dst.leaves
  }

  ghost predicate Grown(dst: Space, dst': Space) {
    forall q :: q in dst.leaves ==> q in dst'.leaves && dst'.leaves[q] == dst.leaves[q]
  }

  lemma LeafFramesGrow(dst: Space, dst': Space)
    requires Grown(dst, dst')
    ensures LeafFrames(dst) <= LeafFrames(dst')
  {
    forall f | f in LeafFrames(dst) ensures f in LeafFrames(dst') {
      var q :| q in dst.leaves && dst.leaves[q].frame == f;
      assert q in dst'.leaves;
    }
  }

  lemma GrownFrom(dst: Space, dst': Space, p: Path, lo: nat, hi: nat)
    requires Elsewhere(dst, dst', p, lo, hi) && Vacant(dst, p, lo, hi)
    ensures Grown(dst, dst')
  {
    forall q | q in dst.leaves ensures q in dst'.leaves && dst'.leaves[q] == dst.leaves[q] {
      assert !Under(p, lo, hi, q);
      assert SameLeaf(dst, dst', q);
    }
  }

  /** What is copied stays copied: later steps touch neither the source nor copied pages. */
  lemma MatchesStable(phys: Phys, phys': Phys, src: Space, dst: Space, dst': Space, free0: set<FrameNo>, q: Path)
    requires Matches(phys, src, dst, q) && SameLeaf(dst, dst', q)
    requires OnlyChanged(phys, phys', free0 - LeafFrames(dst)) && Frames(src) !! free0
    ensures Matches(phys', src, dst', q)
  {
    if q in src.leaves {
      assert src.leaves[q].frame in LeafFrames(src) && dst.leaves[q].frame in LeafFrames(dst);
    }
  }

  /** Slots lo..mid-1 were copied, then slots mid..hi-1. */
  lemma CopiedJoin(phys: Phys, phys': Phys, src: Space, dst: Space, dst1: Space, dst2: Space,
                   free0: set<FrameNo>, p: Path, lo: nat, mid: nat, hi: nat)
    requires lo <= mid <= hi && Frames(src) !! free0
    requires Copied(phys, src, dst1, p, lo, mid) && Elsewhere(dst, dst1, p, lo, mid)
    requires Copied(phys', src, dst2, p, mid, hi) && Elsewhere(dst1, dst2, p, mid, hi)
    requires OnlyChanged(phys, phys', free0 - LeafFrames(dst1))
    ensures Copied(phys', src, dst2, p, lo, hi)
  {
    forall q | Under(p, lo, hi, q) ensures Matches(phys', src, dst2, q) {
      if q[|p|] < mid {
        assert Under(p, lo, mid, q) && !Under(p, mid, hi, q);
        MatchesStable(phys, phys', src, dst1, dst2, free0, q);
      } else {
        assert Under(p, mid, hi, q);
      }
    }
  }

  lemma ElsewhereJoin(dst: Space, dst1: Space, dst2: Space, p: Path, lo: nat, mid: nat, hi: nat)
    requires lo <= mid <= hi && Elsewhere(dst, dst1, p, lo, mid) && Elsewhere(dst1, dst2, p, mid, hi)
    ensures Elsewhere(dst, dst2, p, lo, hi)
    ensures Vacant(dst, p, mid, hi) ==> Vacant(dst1, p, mid, hi)
  {
    forall q | !Under(p, lo, hi, q) ensures SameLeaf(dst, dst2, q) {
      assert !Under(p, lo, mid, q) && !Under(p, mid, hi, q);
      assert SameLeaf(dst, dst1, q) && SameLeaf(dst1, dst2, q);
    }
    if Vacant(dst, p, mid, hi) {
      forall q | Under(p, mid, hi, q) ensures q !in dst1.leaves {
        assert !Under(p, lo, mid, q);
        assert SameLeaf(dst, dst1, q);
      }
    }
  }

  /** Page q lies at or below path p. */
  ghost predicate InTree(p: Path, q: Path) {
    |p| <= |q| == 4 && q[..|p|] == p
  }

  ghost predicate TreeCopied(phys: Phys, src: Space, dst: Space, p: Path) {
    forall q :: InTree(p, q) ==> Matches(phys, src, dst, q)
  }

  ghost predicate TreeElsewhere(dst: Space, dst': Space, p: Path) {
    forall q :: !InTree(p, q) ==> SameLeaf(dst, dst', q)
  }

  ghost predicate TreeVacant(dst: Space, p: Path) {
    forall q :: InTree(p, q) ==> q !in dst.leaves
  }

  /** Slot i of table p holds everything at or below p+[i]. */
  lemma SlotIsTree(p: Path, i: nat, q: Path)
    requires |p| < 4
    ensures Under(p, i, i + 1, q) <==> InTree(p + [i], q)
  {
    if |p| < |q| {
      assert q[..|p| + 1] == q[..|p|] + [q[|p|]];
      PathEnd(q[..|p|], q[|p|], p, i);
    }
  }

  lemma TreeToSlot(phys: Phys, src: Space, dst: Space, dst': Space, p: Path, i: nat)
    requires |p| < 4
    ensures Vacant(dst, p, i, i + 1) ==> TreeVacant(dst, p + [i])
    ensures TreeElsewhere(dst, dst', p + [i]) ==> Elsewhere(dst, dst', p, i, i + 1)
    ensures TreeCopied(phys, src, dst', p + [i]) ==> Copied(phys, src, dst', p, i, i + 1)
  {
    forall q ensures Under(p, i, i + 1, q) <==> InTree(p + [i], q) {
      SlotIsTree(p, i, q);
    }
  }

  function Limit(depth: nat): nat { if depth == 0 then KERNEL_PML4_FIRST else ENTRIES }

  /** Beyond the last slot there are no pages at all. */
  lemma SlotsToTree(phys: Phys, src: Space, dst: Space, dst': Space, p: Path)
    requires |p| < 4 && Shape(src) && Shape(dst) && Shape(dst')
    ensures TreeVacant(dst, p) ==> Vacant(dst, p, 0, Limit(|p|))
    ensures Elsewhere(dst, dst', p, 0, Limit(|p|)) ==> TreeElsewhere(dst, dst', p)
    ensures Copied(phys, src, dst', p, 0, Limit(|p|)) ==> TreeCopied(phys, src, dst', p)
  {
    forall q | InTree(p, q) && !Under(p, 0, Limit(|p|), q)
      ensures q !in src.leaves && q !in dst.leaves && q !in dst'.leaves
    {
      assert !LowerIndex(|p|, q[|p|]);
    }
    assert forall q :: Under(p, 0, Limit(|p|), q) ==> InTree(p, q);
  }

  /** A slot without a present entry has no page of the source below it. */
  lemma {:induction false} EmptySlot(phys: Phys, src: Space, p: Path, i: nat, q: Path)
    requires Rep(phys, src) && p in src.tables && LowerIndex(|p|, i) && !IsPresent(EntryAt(phys, src, p, i))
    requires InTree(p + [i], q)
    ensures q !in src.leaves
  {
    if |p| == 3 {
      assert LeafSlot(phys, src, p, i);
      assert q == p + [i];
    } else {
      assert TableSlot(phys, src, p, i);
      if q in src.leaves {
        LeafTables(src, q, |p| + 1);
      }
    }
  }

  lemma NothingToCopy(phys: Phys, src: Space, dst: Space, p: Path, i: nat)
    requires Rep(phys, src) && p in src.tables && LowerIndex(|p|, i) && !IsPresent(EntryAt(phys, src, p, i))
    requires TreeVacant(dst, p + [i])
    ensures TreeCopied(phys, src, dst, p + [i])
  {
    forall q | InTree(p + [i], q) ensures Matches(phys, src, dst, q) {
      EmptySlot(phys, src, p, i, q);
    }
  }

  lemma TableShown(phys: Phys, s: Space, p: Path)
    requires Rep(phys, s) && p in s.tables
    ensures s.tables[p] in phys && Shape(s)
  {
  }

  lemma NoChange(phys: Phys, dst: Space, p: Path, changed: set<FrameNo>)
    ensures OnlyChanged(phys, phys, changed) && TreeElsewhere(dst, dst, p)
  {
  }

  lemma ChangeSet(phys: Phys, free0: set<FrameNo>, free: set<FrameNo>, dst: Space)
    requires DestOk(phys, free0, free, dst)
    ensures TableFrames(dst) + free == free0 - LeafFrames(dst)
  {
  }

  lemma SourcePage(phys: Phys, src: Space, dst: Space, p: Path, i: nat)
    requires Rep(phys, src) && p in src.tables && |p| == 3 && LowerIndex(|p|, i) && IsPresent(EntryAt(phys, src, p, i))
    requires TreeVacant(dst, p + [i])
    ensures p + [i] in src.leaves && src.leaves[p + [i]] == EntryAt(phys, src, p, i) && p + [i] !in dst.leaves
    ensures VirtOf(p + [i]) < LOWER_END && PathOf(VirtOf(p + [i])) == p + [i]
  {
    assert LeafSlot(phys, src, p, i);
    assert (p + [i])[..4] == p + [i];
    assert InTree(p + [i], p + [i]);
    VirtRoundTrip(p + [i]);
  }

  lemma PageCopied(phys: Phys, src: Space, dst: Space, dst': Space, q: Path, ok: bool)
    requires |q| == 4 && q !in dst.leaves
    requires if ok then Matches(phys, src, dst', q) && dst'.leaves - {q} == dst.leaves else dst'.leaves == dst.leaves
    ensures TreeElsewhere(dst, dst', q) && (ok ==> TreeCopied(phys, src, dst', q))
  {
    forall r ensures InTree(q, r) <==> r == q {
      if |r| == 4 { assert r[..4] == r; }
    }
    if ok {
      forall r | !InTree(q, r) ensures SameLeaf(dst, dst', r) {
        assert r in dst.leaves <==> r in dst'.leaves - {q};
      }
    }
  }

  lemma ElsewhereNone(dst: Space, p: Path)
    ensures Elsewhere(dst, dst, p, 0, 0)
  {
  }

  lemma CopiedNone(phys: Phys, src: Space, dst: Space, p: Path)
    ensures Copied(phys, src, dst, p, 0, 0)
  {
  }

  lemma ElsewhereWiden(dst: Space, dst': Space, p: Path, hi: nat, hi': nat)
    requires Elsewhere(dst, dst', p, 0, hi) && hi <= hi'
    ensures Elsewhere(dst, dst', p, 0, hi')
  {
    forall q | !Under(p, 0, hi', q) ensures SameLeaf(dst, dst', q) {
      assert !Under(p, 0, hi, q);
    }
  }

  /** Slots 0..i-1 leave slot i as vacant as it was, and no page has gone. */
  lemma TurnStarts(dst: Space, dst1: Space, p: Path, i: nat, n: nat)
    requires |p| < 4 && i < n && Elsewhere(dst, dst1, p, 0, i) && Vacant(dst, p, 0, n)
    ensures TreeVacant(dst1, p + [i]) && LeafFrames(dst) <= LeafFrames(dst1)
  {
    forall q | InTree(p + [i], q) ensures q !in dst1.leaves {
      SlotIsTree(p, i, q);
      assert Under(p, 0, n, q) && !Under(p, 0, i, q);
      assert SameLeaf(dst, dst1, q);
    }
    assert Vacant(dst, p, 0, i) by {
      assert forall q :: Under(p, 0, i, q) ==> Under(p, 0, n, q);
    }
    GrownFrom(dst, dst1, p, 0, i);
    LeafFramesGrow(dst, dst1);
  }

  /** Slot i was visited after slots 0..i-1. */
  lemma TurnEnds(phys: Phys, phys': Phys, src: Space, dst: Space, dst1: Space,
                 dst2: Space, free0: set<FrameNo>, p: Path, i: nat, ok: bool)
    requires |p| < 4 && Frames(src) !! free0
    requires Copied(phys, src, dst1, p, 0, i) && Elsewhere(dst, dst1, p, 0, i)
    requires TreeElsewhere(dst1, dst2, p + [i]) && (ok ==> TreeCopied(phys', src, dst2, p + [i]))
    requires OnlyChanged(phys, phys', free0 - LeafFrames(dst1))
    ensures Elsewhere(dst, dst2, p, 0, i + 1)
    ensures ok ==> Copied(phys', src, dst2, p, 0, i + 1)
  {
    TreeToSlot(phys', src, dst1, dst2, p, i);
    ElsewhereJoin(dst, dst1, dst2, p, 0, i, i + 1);
    if ok { CopiedJoin(phys, phys', src, dst, dst1, dst2, free0, p, 0, i, i + 1); }
  }

  ghost predicate Copying(m: Machine, dstRoot: FrameNo, src: Space, dst: Space, free0: set<FrameNo>)
    reads m
  {
    && m.Valid() && SourceOk(m.phys, free0, src) && DestOk(m.phys, free0, m.free, dst)
    && [] in dst.tables && dst.tables[[]] == dstRoot && Partial(src, dst)
  }

  /** The body of one turn of the copying walk, at slot i of the source's table p. */
  method CopySlot(m: Machine, p: Path, i: nat, table: FrameNo, dstRoot: FrameNo,
                  ghost src: Space, ghost dst: Space, ghost free0: set<FrameNo>)
    returns (ok: bool, ghost dst': Space)
    requires Copying(m, dstRoot, src, dst, free0)
    requires p in src.tables && |p| <= 3 && table == src.tables[p] && LowerIndex(|p|, i) && TreeVacant(dst, p + [i])
    modifies m
    ensures Copying(m, dstRoot, src, dst', free0)
    ensures OnlyChanged(old(m.phys), m.phys, free0 - LeafFrames(dst)) && UpperKept(old(m.phys), m.phys, dstRoot)
    ensures TreeElsewhere(dst, dst', p + [i])
    ensures if ok then TreeCopied(m.phys, src, dst', p + [i]) else |free0| < Needs(src)
    decreases 3 - |p|, 0
  {
    hide Rep, OnlyChanged, TableFrames, LeafFrames, TreeElsewhere, TreeCopied, TreeVacant, Separate, Partial, Needs;
    hide UpperKept;
    ghost var phys0 := m.phys;
    TableShown(m.phys, src, p);
    var w := WindowAt(|p|);
    m.ScratchMap(w, table);
    ok, dst' := true, dst;
    NoChange(m.phys, dst, p + [i], free0 - LeafFrames(dst));
    UpperFilled(phys0, free0, m.free, dst);
    var e := m.phys[m.win[w]][i];
    if !IsPresent(e) {
      NothingToCopy(m.phys, src, dst, p, i);
      return;
    }
    ChangeSet(m.phys, free0, m.free, dst);
    if |p| == 3 {
      SourcePage(m.phys, src, dst, p, i);
      ok, dst' := CopyMapping(m, dstRoot, VirtOf(p + [i]), e, src, dst, free0);
      PageCopied(m.phys, src, dst, dst', p + [i], ok);
    } else {
      SlotAt(m.phys, src, p, i);
      ok, dst' := CopyWalk(m, p + [i], e.frame, dstRoot, src, dst, free0);
    }
  }

  /** The four nested loops of walk_lower_mappings with the copying callback; a loop over the
      slots of the table p, with the next loop called for every present entry. */
  method CopyWalk(m: Machine, p: Path, table: FrameNo, dstRoot: FrameNo,
                  ghost src: Space, ghost dst: Space, ghost free0: set<FrameNo>)
    returns (ok: bool, ghost dst': Space)
    requires Copying(m, dstRoot, src, dst, free0)
    requires p in src.tables && |p| <= 3 && table == src.tables[p] && TreeVacant(dst, p)
    modifies m
    ensures Copying(m, dstRoot, src, dst', free0)
    ensures OnlyChanged(old(m.phys), m.phys, free0 - LeafFrames(dst)) && UpperKept(old(m.phys), m.phys, dstRoot)
    ensures TreeElsewhere(dst, dst', p)
    ensures if ok then TreeCopied(m.phys, src, dst', p) else |free0| < Needs(src)
    decreases 3 - |p|, 1
  {
    hide Rep, Shape, OnlyChanged, TableFrames, LeafFrames, Elsewhere, Copied, Vacant, TreeElsewhere, TreeCopied;
    hide TreeVacant, Separate, Grown, Partial, Needs, UpperKept;
    ghost var phys0, n := m.phys, Limit(|p|);
    var i := 0;
    ok, dst' := true, dst;
    NoChange(phys0, dst, p, free0 - LeafFrames(dst));
    UpperFilled(phys0, free0, m.free, dst);
    ElsewhereNone(dst, p);
    CopiedNone(phys0, src, dst, p);
    ShapesOf(phys0, free0, m.free, src, dst);
    SlotsToTree(phys0, src, dst, dst, p);
    while i < Limit(|p|)
      invariant 0 <= i <= n && ok
      invariant Copying(m, dstRoot, src, dst', free0)
      invariant OnlyChanged(phys0, m.phys, free0 - LeafFrames(dst)) && UpperKept(phys0, m.phys, dstRoot)
      invariant Elsewhere(dst, dst', p, 0, i) && Copied(m.phys, src, dst', p, 0, i)
      decreases n - i
    {
      ghost var phys1, dst1 := m.phys, dst';
      TurnStarts(dst, dst1, p, i, n);
      ok, dst' := CopySlot(m, p, i, table, dstRoot, src, dst1, free0);
      TurnEnds(phys1, m.phys, src, dst, dst1, dst', free0, p, i, ok);
      ChangedVia(phys0, phys1, m.phys, free0 - LeafFrames(dst), free0 - LeafFrames(dst1), free0 - LeafFrames(dst));
      UpperTrans(phys0, phys1, m.phys, dstRoot);
      ShapesOf(m.phys, free0, m.free, src, dst');
      if !ok {
        ElsewhereWiden(dst, dst', p, i + 1, n);
        SlotsToTree(m.phys, src, dst, dst', p);
        return;
      }
      i := i + 1;
    }
    ShapesOf(m.phys, free0, m.free, src, dst');
    SlotsToTree(m.phys, src, dst, dst', p);
  }

  lemma ShapesOf(phys: Phys, free0: set<FrameNo>, free: set<FrameNo>, src: Space, dst: Space)
    requires SourceOk(phys, free0, src) && DestOk(phys, free0, free, dst)
    ensures Shape(src) && Shape(dst)
  {
  }
}
